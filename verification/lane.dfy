/** Weighted fair dequeue over the high / normal / bulk request lanes. */
module PriorityLane {
  import opened Wrappers

  datatype Priority = High | Normal | Bulk

  datatype QueuedRequest = QueuedRequest(requestId: string, priority: Priority)

  datatype LaneError = BadWeight | EmptyRequestId

  const LANES: set<Priority> := {High, Normal, Bulk}

  const DEFAULT_WEIGHTS: map<Priority, int> := map[High := 4, Normal := 2, Bulk := 1]

  type Queues = q: map<Priority, seq<string>> | (forall p: Priority :: p in q)
    witness map p: Priority :: []

  type Weights = w: map<Priority, int> | (forall p: Priority :: p in w && w[p] > 0)
    witness map p: Priority :: 1

  const EMPTY_QUEUES: Queues := map p: Priority :: []

  // ---------------------------------------------------------------- the cycle

  function Block(lane: Priority, n: nat): seq<Priority> {
    seq(n, _ => lane)
  }

  function BuildCycle(w: Weights): seq<Priority> {
    Block(High, w[High]) + Block(Normal, w[Normal]) + Block(Bulk, w[Bulk])
  }

  /** Length of one full cycle: the sum of the weights. */
  function Total(w: Weights): nat {
    w[High] + w[Normal] + w[Bulk]
  }

  function Bump(c: nat, length: nat): (r: nat)
    requires c < length
    ensures r == if c + 1 == length then 0 else c + 1
  {
    (c + 1) % length
  }

  /** How many of the n consecutive slots starting at slot c belong to the lane. */
  ghost function Slots(cycle: seq<Priority>, lane: Priority, c: nat, n: nat): nat
    requires c < |cycle|
    decreases n
  {
    if n == 0 then 0
    else (if cycle[c] == lane then 1 else 0) + Slots(cycle, lane, Bump(c, |cycle|), n - 1)
  }

  ghost function Forward(c: nat, n: nat, length: nat): (r: nat)
    requires c < length
    ensures r < length
    decreases n
  {
    if n == 0 then c else Forward(Bump(c, length), n - 1, length)
  }

  lemma {:induction false} SlotsSplit(cycle: seq<Priority>, lane: Priority, c: nat, a: nat, b: nat)
    requires c < |cycle|
    ensures Slots(cycle, lane, c, a + b)
         == Slots(cycle, lane, c, a) + Slots(cycle, lane, Forward(c, a, |cycle|), b)
    decreases a
  {
    if a > 0 {
      SlotsSplit(cycle, lane, Bump(c, |cycle|), a - 1, b);
      assert a + b - 1 == (a - 1) + b;
    }
  }

  lemma {:induction false} ForwardWithoutWrap(c: nat, n: nat, length: nat)
    requires c < length && c + n <= length
    ensures Forward(c, n, length) == if c + n == length then 0 else c + n
    decreases n
  {
    if n > 0 && c + 1 < length {
      ForwardWithoutWrap(c + 1, n - 1, length);
    }
  }

  lemma {:induction false} SlotsWithin(cycle: seq<Priority>, lane: Priority, other: Priority, c: nat, n: nat)
    requires n > 0 && c + n <= |cycle|
    requires forall i :: c <= i < c + n ==> cycle[i] == other
    ensures Slots(cycle, lane, c, n) == if other == lane then n else 0
    decreases n
  {
    if n > 1 {
      SlotsWithin(cycle, lane, other, c + 1, n - 1);
    }
  }

  /** One turn of the wheel from slot 0 shows each lane exactly as often as its weight says. */
  lemma TurnFromZero(w: Weights, lane: Priority)
    ensures |BuildCycle(w)| == Total(w)
    ensures Slots(BuildCycle(w), lane, 0, Total(w)) == w[lane]
  {
    var cycle := BuildCycle(w);
    var h, n, b := w[High], w[Normal], w[Bulk];
    SlotsSplit(cycle, lane, 0, h, n + b);
    ForwardWithoutWrap(0, h, |cycle|);
    SlotsSplit(cycle, lane, h, n, b);
    ForwardWithoutWrap(h, n, |cycle|);
    SlotsWithin(cycle, lane, High, 0, h);
    SlotsWithin(cycle, lane, Normal, h, n);
    SlotsWithin(cycle, lane, Bulk, h + n, b);
  }

  lemma {:induction false} TurnFromAnywhere(w: Weights, lane: Priority, c: nat)
    requires c < Total(w)
    ensures |BuildCycle(w)| == Total(w)
    ensures Slots(BuildCycle(w), lane, c, Total(w)) == w[lane]
    decreases c
  {
    TurnFromZero(w, lane);
    if c > 0 {
      var cycle, total := BuildCycle(w), Total(w);
      TurnFromAnywhere(w, lane, c - 1);
      SlotsSplit(cycle, lane, c, total - 1, 1);
      FullTurnReturns(c - 1, total);
    }
  }

  lemma FullTurnReturns(c: nat, length: nat)
    requires c + 1 < length
    ensures Forward(c + 1, length - 1, length) == c
  {
    ForwardSplit(c + 1, length - 1 - c, c, length);
    ForwardWithoutWrap(c + 1, length - 1 - c, length);
    ForwardWithoutWrap(0, c, length);
  }

  lemma {:induction false} ForwardSplit(c: nat, a: nat, b: nat, length: nat)
    requires c < length
    ensures Forward(c, a + b, length) == Forward(Forward(c, a, length), b, length)
    decreases a
  {
    if a > 0 {
      assert a + b - 1 == (a - 1) + b;
      ForwardSplit(Bump(c, length), a - 1, b, length);
    }
  }

  ghost function Times(k: nat, x: nat): nat {
    if k == 0 then 0 else x + Times(k - 1, x)
  }

  lemma {:induction false} TimesIsProduct(k: nat, x: nat)
    ensures Times(k, x) == k * x
    decreases k
  {
    if k > 0 {
      TimesIsProduct(k - 1, x);
      assert k * x == x + (k - 1) * x;
    }
  }

  /** k full turns from any slot show the lane k times its weight. */
  lemma {:induction false} ManyTurns(w: Weights, lane: Priority, c: nat, k: nat)
    requires c < Total(w)
    ensures |BuildCycle(w)| == Total(w)
    ensures Slots(BuildCycle(w), lane, c, Times(k, Total(w))) == Times(k, w[lane])
    decreases k
  {
    TurnFromAnywhere(w, lane, c);
    if k > 0 {
      var total := Total(w);
      SlotsSplit(BuildCycle(w), lane, c, total, Times(k - 1, total));
      ManyTurns(w, lane, Forward(c, total, total), k - 1);
    }
  }

  lemma {:induction false} SlotsMonotone(cycle: seq<Priority>, lane: Priority, c: nat, a: nat, b: nat)
    requires c < |cycle| && a <= b
    ensures Slots(cycle, lane, c, a) <= Slots(cycle, lane, c, b) <= Slots(cycle, lane, c, a) + (b - a)
  {
    SlotsSplit(cycle, lane, c, a, b - a);
    SlotsAtMost(cycle, lane, Forward(c, a, |cycle|), b - a);
  }

  lemma {:induction false} SlotsAtMost(cycle: seq<Priority>, lane: Priority, c: nat, n: nat)
    requires c < |cycle|
    ensures Slots(cycle, lane, c, n) <= n
    decreases n
  {
    if n > 0 {
      SlotsAtMost(cycle, lane, Bump(c, |cycle|), n - 1);
    }
  }

  // ------------------------------------------------------------ one operation

  /** Abstract state of the scheduler: the three queues and the cycle cursor. */
  datatype Lanes = Lanes(queues: Queues, cursor: nat)

  datatype Op = Enqueue(requestId: string, lane: Priority) | Dequeue

  predicate AllEmpty(q: Queues) {
    forall p <- LANES :: q[p] == []
  }

  /** Distance from the cursor to the first slot whose lane has work, at most `left`. */
  ghost function Skipped(cycle: seq<Priority>, q: Queues, c: nat, left: nat): (d: nat)
    requires c < |cycle|
    ensures d <= left
    decreases left
  {
    if left == 0 || q[cycle[c]] != [] then 0 else 1 + Skipped(cycle, q, Bump(c, |cycle|), left - 1)
  }

  /** The slot a dequeue stops at: the first one, going round once, whose lane is not empty. */
  ghost function StopSlot(cycle: seq<Priority>, s: Lanes): (c: nat)
    requires s.cursor < |cycle|
    ensures c < |cycle|
  {
    Forward(s.cursor, Skipped(cycle, s.queues, s.cursor, |cycle|), |cycle|)
  }

  ghost function Next(cycle: seq<Priority>, s: Lanes, op: Op): (s': Lanes)
    requires s.cursor < |cycle|
    ensures s'.cursor < |cycle|
  {
    match op
    case Enqueue(id, lane) => s.(queues := s.queues[lane := s.queues[lane] + [id]])
    case Dequeue =>
      var c := StopSlot(cycle, s);
      var lane := cycle[c];
      if s.queues[lane] == [] then s
      else Lanes(s.queues[lane := s.queues[lane][1..]], Bump(c, |cycle|))
  }

  ghost function Reply(cycle: seq<Priority>, s: Lanes, op: Op): Option<QueuedRequest>
    requires s.cursor < |cycle|
  {
    match op
    case Enqueue(_, _) => None
    case Dequeue =>
      var lane := cycle[StopSlot(cycle, s)];
      if s.queues[lane] == [] then None else Some(QueuedRequest(s.queues[lane][0], lane))
  }

  /** Slots passed over belong to empty lanes, and a scan that stops early stops at work. */
  lemma {:induction false} ScanSkipsOnlyEmpty(cycle: seq<Priority>, q: Queues, c: nat, left: nat, lane: Priority)
    requires c < |cycle|
    ensures lane in q && q[lane] != [] ==> Slots(cycle, lane, c, Skipped(cycle, q, c, left)) == 0
    ensures Skipped(cycle, q, c, left) < left ==>
              q[cycle[Forward(c, Skipped(cycle, q, c, left), |cycle|)]] != []
    decreases left
  {
    if left > 0 && q[cycle[c]] == [] {
      ScanSkipsOnlyEmpty(cycle, q, Bump(c, |cycle|), left - 1, lane);
    }
  }

  /** Going once round the cycle finds work whenever there is any. */
  lemma StopIsReady(w: Weights, s: Lanes)
    requires s.cursor < Total(w)
    ensures |BuildCycle(w)| == Total(w)
    ensures !AllEmpty(s.queues) ==> Skipped(BuildCycle(w), s.queues, s.cursor, Total(w)) < Total(w)
    ensures s.queues[BuildCycle(w)[StopSlot(BuildCycle(w), s)]] != [] <==> !AllEmpty(s.queues)
  {
    var cycle := BuildCycle(w);
    if !AllEmpty(s.queues) {
      var lane :| lane in LANES && s.queues[lane] != [];
      ScanSkipsOnlyEmpty(cycle, s.queues, s.cursor, |cycle|, lane);
      TurnFromAnywhere(w, lane, s.cursor);
    }
  }

  // ---------------------------------------------------------- the class itself

  class RequestPriorityLane {
    const weights: Weights
    const cycle: seq<Priority>
    var queues: Queues
    var cycleIndex: nat

    ghost predicate Valid()
      reads this
    {
      cycle == BuildCycle(weights) && cycleIndex < |cycle|
    }

    ghost function State(): Lanes
      reads this
    {
      Lanes(queues, cycleIndex)
    }

    constructor (weights: Weights)
      ensures Valid() && this.weights == weights && State() == Lanes(EMPTY_QUEUES, 0)
    {
      this.weights := weights;
      cycle := BuildCycle(weights);
      queues := EMPTY_QUEUES;
      cycleIndex := 0;
    }

    /** Resolves the configured weights over the defaults; a non-positive weight raises. */
    static method Create(overrides: map<Priority, int>) returns (r: Result<RequestPriorityLane, LaneError>)
      ensures r.Raised? <==> exists p <- LANES :: (DEFAULT_WEIGHTS + overrides)[p] <= 0
      ensures r.Returned? ==> fresh(r.value) && r.value.Valid()
      ensures r.Returned? ==> r.value.weights == DEFAULT_WEIGHTS + overrides
      ensures r.Returned? && overrides == map[] ==> r.value.weights == map[High := 4, Normal := 2, Bulk := 1]
      ensures r.Returned? ==> r.value.State().cursor == 0 && forall p: Priority :: r.value.State().queues[p] == []
    {
      var resolved := DEFAULT_WEIGHTS + overrides;
      if p :| p in LANES && resolved[p] <= 0 {
        return Raised(BadWeight);
      }
      assert forall p <- LANES :: resolved[p] > 0;
      forall p: Priority ensures p in resolved && resolved[p] > 0 {
        LanesComplete(p);
        assert p in DEFAULT_WEIGHTS;
      }
      var lane := new RequestPriorityLane(resolved);
      r := Returned(lane);
    }

    method Enqueue(requestId: string, lane: Priority) returns (r: Result<(), LaneError>)
      requires Valid()
      modifies this
      ensures Valid()
      ensures requestId == "" ==> r == Raised(EmptyRequestId) && State() == old(State())
      ensures requestId != "" ==> r == Returned(()) && State() == Next(cycle, old(State()), Op.Enqueue(requestId, lane))
    {
      if requestId == "" {
        return Raised(EmptyRequestId);
      }
      queues := queues[lane := queues[lane] + [requestId]];
      r := Returned(());
    }

    /** Serves the head of the first lane with work at or after the cursor; None only when nothing waits. */
    method Dequeue() returns (r: Option<QueuedRequest>)
      requires Valid()
      modifies this
      ensures Valid()
      ensures r == Reply(cycle, old(State()), Op.Dequeue)
      ensures State() == Next(cycle, old(State()), Op.Dequeue)
      ensures r == None <==> old(AllEmpty(queues))
    {
      StopIsReady(weights, State());
      if AllEmpty(queues) {
        return None;
      }
      ghost var skipped := Skipped(cycle, queues, cycleIndex, |cycle|);
      var checked := 0;
      while checked < |cycle|
        invariant 0 <= checked <= skipped && cycleIndex < |cycle|
        invariant queues == old(queues)
        invariant StopSlot(cycle, old(State())) == Forward(cycleIndex, skipped - checked, |cycle|)
        invariant skipped == checked + Skipped(cycle, queues, cycleIndex, |cycle| - checked)
      {
        ghost var slot := cycleIndex;
        var lane := cycle[cycleIndex];
        cycleIndex := (cycleIndex + 1) % |cycle|;
        assert cycleIndex == Bump(slot, |cycle|);
        checked := checked + 1;
        if queues[lane] != [] {
          assert StopSlot(cycle, old(State())) == slot;
          r := Some(QueuedRequest(queues[lane][0], lane));
          queues := queues[lane := queues[lane][1..]];
          return;
        }
      }
      assert false;
    }

    /** Requests waiting in one lane, or in all of them. */
    method Depth(lane: Option<Priority>) returns (n: nat)
      requires Valid()
      ensures lane.Some? ==> n == |State().queues[lane.value]|
      ensures lane.None? ==> n == |queues[High]| + |queues[Normal]| + |queues[Bulk]|
      ensures lane.None? ==> (n == 0 <==> AllEmpty(queues))
    {
      match lane
      case Some(p) =>
        n := |queues[p]|;
      case None =>
        n := |queues[High]| + |queues[Normal]| + |queues[Bulk]|;
    }

    method Clear()
      requires Valid()
      modifies this
      ensures Valid() && State().cursor == 0 && forall p: Priority :: State().queues[p] == []
    {
      queues := EMPTY_QUEUES;
      cycleIndex := 0;
    }
  }

  lemma LanesComplete(p: Priority)
    ensures p in LANES
  {
    match p case High => case Normal => case Bulk =>
  }

  // ------------------------------------------------------------------- runs

  ghost function Final(cycle: seq<Priority>, s: Lanes, ops: seq<Op>): (s': Lanes)
    requires s.cursor < |cycle|
    ensures s'.cursor < |cycle|
    decreases |ops|
  {
    if ops == [] then s else Final(cycle, Next(cycle, s, ops[0]), ops[1..])
  }

  /** What one operation hands out from the lane. */
  ghost function Out(cycle: seq<Priority>, s: Lanes, op: Op, lane: Priority): seq<string>
    requires s.cursor < |cycle|
  {
    var r := Reply(cycle, s, op);
    if r.Some? && r.value.priority == lane then [r.value.requestId] else []
  }

  /** What one operation puts into the lane. */
  ghost function In(op: Op, lane: Priority): seq<string>
  {
    if op.Enqueue? && op.lane == lane then [op.requestId] else []
  }

  ghost function Served(cycle: seq<Priority>, s: Lanes, ops: seq<Op>, lane: Priority): seq<string>
    requires s.cursor < |cycle|
    decreases |ops|
  {
    if ops == [] then []
    else Out(cycle, s, ops[0], lane) + Served(cycle, Next(cycle, s, ops[0]), ops[1..], lane)
  }

  ghost function Enqueued(ops: seq<Op>, lane: Priority): seq<string>
  {
    if ops == [] then [] else In(ops[0], lane) + Enqueued(ops[1..], lane)
  }

  ghost function Dequeues(ops: seq<Op>): nat
  {
    if ops == [] then 0 else (if ops[0].Dequeue? then 1 else 0) + Dequeues(ops[1..])
  }

  /** The lane has work in front of every dequeue of the run. */
  ghost predicate StaysBacklogged(cycle: seq<Priority>, s: Lanes, ops: seq<Op>, lane: Priority)
    requires s.cursor < |cycle|
    decreases |ops|
  {
    ops == [] ||
    (&& (ops[0].Dequeue? ==> s.queues[lane] != [])
     && StaysBacklogged(cycle, Next(cycle, s, ops[0]), ops[1..], lane))
  }

  /** Slots the cursor moves over in one operation. */
  ghost function Moved(cycle: seq<Priority>, s: Lanes, op: Op): nat
    requires s.cursor < |cycle|
  {
    if op.Enqueue? || AllEmpty(s.queues) then 0 else Skipped(cycle, s.queues, s.cursor, |cycle|) + 1
  }

  ghost function Travelled(cycle: seq<Priority>, s: Lanes, ops: seq<Op>): nat
    requires s.cursor < |cycle|
    decreases |ops|
  {
    if ops == [] then 0
    else Moved(cycle, s, ops[0]) + Travelled(cycle, Next(cycle, s, ops[0]), ops[1..])
  }

  lemma ConservesOne(w: Weights, s: Lanes, op: Op, lane: Priority)
    requires s.cursor < |BuildCycle(w)|
    ensures Out(BuildCycle(w), s, op, lane) + Next(BuildCycle(w), s, op).queues[lane] == s.queues[lane] + In(op, lane)
  {
    var cycle := BuildCycle(w);
    if op.Dequeue? {
      var q := s.queues[cycle[StopSlot(cycle, s)]];
      if q != [] {
        assert [q[0]] + q[1..] == q;
      }
    }
  }

  /** Nothing is lost, duplicated or reordered within a lane. */
  lemma {:induction false} Conservation(w: Weights, s: Lanes, ops: seq<Op>, lane: Priority)
    requires s.cursor < |BuildCycle(w)|
    ensures Served(BuildCycle(w), s, ops, lane) + Final(BuildCycle(w), s, ops).queues[lane]
         == s.queues[lane] + Enqueued(ops, lane)
    decreases |ops|
  {
    if ops != [] {
      var cycle := BuildCycle(w);
      var s' := Next(cycle, s, ops[0]);
      ConservesOne(w, s, ops[0], lane);
      Conservation(w, s', ops[1..], lane);
      Regroup(Out(cycle, s, ops[0], lane), Served(cycle, s', ops[1..], lane), Final(cycle, s', ops[1..]).queues[lane],
              s'.queues[lane], Enqueued(ops[1..], lane), s.queues[lane], In(ops[0], lane));
    }
  }

  lemma Regroup(out: seq<string>, served: seq<string>, left: seq<string>, mid: seq<string>, enqueued: seq<string>,
                start: seq<string>, added: seq<string>)
    requires served + left == mid + enqueued && out + mid == start + added
    ensures (out + served) + left == start + (added + enqueued)
  {
    assert (out + served) + left == out + (served + left);
    assert out + (mid + enqueued) == (out + mid) + enqueued;
    assert (start + added) + enqueued == start + (added + enqueued);
  }

  /** An operation that finds the lane busy hands out exactly the lane's slots the cursor moved over. */
  lemma ServesItsSlots(w: Weights, s: Lanes, op: Op, lane: Priority)
    requires s.cursor < |BuildCycle(w)|
    requires op.Dequeue? ==> s.queues[lane] != []
    ensures var cycle := BuildCycle(w);
            var moved := Moved(cycle, s, op);
            && |Out(cycle, s, op, lane)| == Slots(cycle, lane, s.cursor, moved)
            && Next(cycle, s, op).cursor == Forward(s.cursor, moved, |cycle|)
            && (op.Dequeue? ==> moved >= 1)
  {
    if op.Dequeue? {
      var cycle := BuildCycle(w);
      LanesComplete(lane);
      StopIsReady(w, s);
      var d := Skipped(cycle, s.queues, s.cursor, |cycle|);
      ScanSkipsOnlyEmpty(cycle, s.queues, s.cursor, |cycle|, lane);
      ForwardSplit(s.cursor, d, 1, |cycle|);
      SlotsSplit(cycle, lane, s.cursor, d, 1);
    }
  }

  /** While a lane has work no slot of its own is ever passed over: service counts slots. */
  lemma {:induction false} ServiceCountsSlots(w: Weights, s: Lanes, ops: seq<Op>, lane: Priority)
    requires s.cursor < |BuildCycle(w)|
    requires StaysBacklogged(BuildCycle(w), s, ops, lane)
    ensures |Served(BuildCycle(w), s, ops, lane)|
         == Slots(BuildCycle(w), lane, s.cursor, Travelled(BuildCycle(w), s, ops))
    ensures Travelled(BuildCycle(w), s, ops) >= Dequeues(ops)
    decreases |ops|
  {
    if ops != [] {
      var cycle := BuildCycle(w);
      var s' := Next(cycle, s, ops[0]);
      ServiceCountsSlots(w, s', ops[1..], lane);
      ServesItsSlots(w, s, ops[0], lane);
      SlotsSplit(cycle, lane, s.cursor, Moved(cycle, s, ops[0]), Travelled(cycle, s', ops[1..]));
    }
  }

  /** Weighted fairness: k cycles' worth of dequeues serve a lane that stays busy at least k times its weight. */
  lemma FairShare(w: Weights, s: Lanes, ops: seq<Op>, lane: Priority, k: nat)
    requires s.cursor < |BuildCycle(w)|
    requires StaysBacklogged(BuildCycle(w), s, ops, lane)
    requires Dequeues(ops) >= k * Total(w)
    ensures |Served(BuildCycle(w), s, ops, lane)| >= k * w[lane]
  {
    TimesIsProduct(k, Total(w));
    TimesIsProduct(k, w[lane]);
    ServedAtLeast(w, s, ops, lane, Times(k, Total(w)));
    ManyTurns(w, lane, s.cursor, k);
  }

  /** n dequeues serve a busy lane at least as often as it appears in the next n slots. */
  lemma ServedAtLeast(w: Weights, s: Lanes, ops: seq<Op>, lane: Priority, n: nat)
    requires s.cursor < |BuildCycle(w)|
    requires StaysBacklogged(BuildCycle(w), s, ops, lane)
    requires Dequeues(ops) >= n
    ensures |Served(BuildCycle(w), s, ops, lane)| >= Slots(BuildCycle(w), lane, s.cursor, n)
  {
    ServiceCountsSlots(w, s, ops, lane);
    SlotsMonotone(BuildCycle(w), lane, s.cursor, n, Travelled(BuildCycle(w), s, ops));
  }

  /** No hypothesis on the lane: k cycles serve its share, or everything that was waiting in it. */
  lemma FairShareOrDrained(w: Weights, s: Lanes, ops: seq<Op>, lane: Priority, k: nat)
    requires s.cursor < |BuildCycle(w)|
    requires Dequeues(ops) >= k * Total(w)
    ensures |Served(BuildCycle(w), s, ops, lane)| >= k * w[lane]
         || s.queues[lane] <= Served(BuildCycle(w), s, ops, lane)
  {
    var cycle := BuildCycle(w);
    Conservation(w, s, ops, lane);
    var served, left := Served(cycle, s, ops, lane), Final(cycle, s, ops).queues[lane];
    if |served| < |s.queues[lane]| {
      BusyUntilDrained(w, s, ops, lane);
      FairShare(w, s, ops, lane, k);
    } else {
      assert (served + left)[..|s.queues[lane]|] == s.queues[lane];
    }
  }

  /** A lane that did not hand out all it began with never ran empty. */
  lemma {:induction false} BusyUntilDrained(w: Weights, s: Lanes, ops: seq<Op>, lane: Priority)
    requires s.cursor < |BuildCycle(w)|
    requires |Served(BuildCycle(w), s, ops, lane)| < |s.queues[lane]|
    ensures StaysBacklogged(BuildCycle(w), s, ops, lane)
    decreases |ops|
  {
    if ops != [] {
      BusyUntilDrained(w, Next(BuildCycle(w), s, ops[0]), ops[1..], lane);
    }
  }

  /** Starvation bound: whatever else arrives, the head of a lane leaves within W - w + 1 dequeues. */
  lemma HeadWait(w: Weights, s: Lanes, ops: seq<Op>, lane: Priority)
    requires s.cursor < |BuildCycle(w)|
    requires s.queues[lane] != []
    requires Dequeues(ops) >= Total(w) - w[lane] + 1
    ensures Served(BuildCycle(w), s, ops, lane) != []
    ensures Served(BuildCycle(w), s, ops, lane)[0] == s.queues[lane][0]
  {
    var cycle := BuildCycle(w);
    var served := Served(cycle, s, ops, lane);
    if served == [] {
      BusyUntilDrained(w, s, ops, lane);
      ServiceCountsSlots(w, s, ops, lane);
      TurnFromAnywhere(w, lane, s.cursor);
      var n := Total(w) - w[lane] + 1;
      SlotsMonotone(cycle, lane, s.cursor, n, Total(w));
      SlotsMonotone(cycle, lane, s.cursor, n, Travelled(cycle, s, ops));
    }
    Conservation(w, s, ops, lane);
    assert (served + Final(cycle, s, ops).queues[lane])[0] == served[0];
  }

  /** With every lane busy, k cycles' worth of dequeues split exactly by weight. */
  lemma ExactShare(w: Weights, s: Lanes, ops: seq<Op>, lane: Priority, k: nat)
    requires s.cursor < |BuildCycle(w)|
    requires forall p: Priority :: StaysBacklogged(BuildCycle(w), s, ops, p)
    requires Dequeues(ops) == k * Total(w)
    ensures |Served(BuildCycle(w), s, ops, lane)| == k * w[lane]
  {
    ServiceCountsSlots(w, s, ops, lane);
    NoSlotSkipped(w, s, ops);
    TimesIsProduct(k, Total(w));
    TimesIsProduct(k, w[lane]);
    ManyTurns(w, lane, s.cursor, k);
  }

  /** The slot right after the lane's own block. */
  function AfterBlock(w: Weights, lane: Priority): nat {
    match lane
    case High => w[High]
    case Normal => w[High] + w[Normal]
    case Bulk => 0
  }

  /** The W - w slots from there on all belong to other lanes. */
  lemma OthersFollowBlock(w: Weights, lane: Priority)
    ensures AfterBlock(w, lane) < Total(w) == |BuildCycle(w)|
    ensures Slots(BuildCycle(w), lane, AfterBlock(w, lane), Total(w) - w[lane]) == 0
  {
    var cycle := BuildCycle(w);
    var start := match lane case High => 0 case Normal => w[High] case Bulk => w[High] + w[Normal];
    TurnFromAnywhere(w, lane, start);
    SlotsWithin(cycle, lane, lane, start, w[lane]);
    ForwardWithoutWrap(start, w[lane], |cycle|);
    SlotsSplit(cycle, lane, start, w[lane], Total(w) - w[lane]);
  }

  /** From the slot after its block, with every lane busy, W - w dequeues pass the lane over. */
  lemma PassedOver(w: Weights, s: Lanes, ops: seq<Op>, lane: Priority)
    requires s.cursor == AfterBlock(w, lane) < |BuildCycle(w)|
    requires forall p: Priority :: StaysBacklogged(BuildCycle(w), s, ops, p)
    requires Dequeues(ops) == Total(w) - w[lane]
    ensures Served(BuildCycle(w), s, ops, lane) == []
  {
    ServiceCountsSlots(w, s, ops, lane);
    NoSlotSkipped(w, s, ops);
    OthersFollowBlock(w, lane);
  }

  lemma {:induction false} ServedAtMost(w: Weights, s: Lanes, ops: seq<Op>, lane: Priority)
    requires s.cursor < |BuildCycle(w)|
    ensures |Served(BuildCycle(w), s, ops, lane)| <= Dequeues(ops)
    decreases |ops|
  {
    if ops != [] {
      ServedAtMost(w, Next(BuildCycle(w), s, ops[0]), ops[1..], lane);
    }
  }

  ghost function OnlyDequeues(n: nat): (ops: seq<Op>)
    ensures Dequeues(ops) == n
  {
    if n == 0 then [] else
      assert ([Op.Dequeue] + OnlyDequeues(n - 1))[1..] == OnlyDequeues(n - 1);
      [Op.Dequeue] + OnlyDequeues(n - 1)
  }

  /** The cursor stands just past the lane's block, and every queue is longer than W - w. */
  ghost predicate Crowded(w: Weights, s: Lanes, lane: Priority) {
    s.cursor == AfterBlock(w, lane) && forall p: Priority :: |s.queues[p]| > Total(w) - w[lane]
  }

  /** The wait bound is exact for every lane: when crowded, W - w dequeues do not serve it and the next one does. */
  lemma HeadWaitIsTight(w: Weights, s: Lanes, lane: Priority)
    requires Crowded(w, s, lane)
    ensures w[lane] < Total(w) && s.cursor < |BuildCycle(w)|
    ensures Served(BuildCycle(w), s, OnlyDequeues(Total(w) - w[lane]), lane) == []
    ensures Served(BuildCycle(w), s, OnlyDequeues(Total(w) - w[lane] + 1), lane) == [s.queues[lane][0]]
  {
    OthersFollowBlock(w, lane);
    CrowdedStaysBusy(w, s, Total(w) - w[lane]);
    PassedOver(w, s, OnlyDequeues(Total(w) - w[lane]), lane);
    ServedByNext(w, s, lane, Total(w) - w[lane]);
  }

  lemma CrowdedStaysBusy(w: Weights, s: Lanes, n: nat)
    requires s.cursor < |BuildCycle(w)| && forall p: Priority :: |s.queues[p]| > n
    ensures forall p: Priority :: StaysBacklogged(BuildCycle(w), s, OnlyDequeues(n), p)
  {
    forall p: Priority ensures StaysBacklogged(BuildCycle(w), s, OnlyDequeues(n), p) {
      ServedAtMost(w, s, OnlyDequeues(n), p);
      BusyUntilDrained(w, s, OnlyDequeues(n), p);
    }
  }

  lemma ServedByNext(w: Weights, s: Lanes, lane: Priority, n: nat)
    requires s.cursor < |BuildCycle(w)| && s.queues[lane] != [] && n == Total(w) - w[lane]
    requires Served(BuildCycle(w), s, OnlyDequeues(n), lane) == []
    ensures Served(BuildCycle(w), s, OnlyDequeues(n + 1), lane) == [s.queues[lane][0]]
  {
    var cycle := BuildCycle(w);
    HeadWait(w, s, OnlyDequeues(n + 1), lane);
    OneMoreServesOne(w, s, lane, n);
  }

  lemma {:induction false} OneMoreServesOne(w: Weights, s: Lanes, lane: Priority, n: nat)
    requires s.cursor < |BuildCycle(w)|
    ensures |Served(BuildCycle(w), s, OnlyDequeues(n + 1), lane)|
         <= |Served(BuildCycle(w), s, OnlyDequeues(n), lane)| + 1
    decreases n
  {
    var s' := Next(BuildCycle(w), s, Op.Dequeue);
    assert OnlyDequeues(n + 1)[1..] == OnlyDequeues(n);
    if n > 0 {
      OneMoreServesOne(w, s', lane, n - 1);
      assert OnlyDequeues(n)[1..] == OnlyDequeues(n - 1);
    }
  }

  lemma {:induction false} NoSlotSkipped(w: Weights, s: Lanes, ops: seq<Op>)
    requires s.cursor < |BuildCycle(w)|
    requires forall p: Priority :: StaysBacklogged(BuildCycle(w), s, ops, p)
    ensures Travelled(BuildCycle(w), s, ops) == Dequeues(ops)
    decreases |ops|
  {
    if ops != [] {
      var cycle := BuildCycle(w);
      var s' := Next(cycle, s, ops[0]);
      forall p: Priority ensures StaysBacklogged(cycle, s', ops[1..], p) {
        assert StaysBacklogged(cycle, s, ops, p);
      }
      NoSlotSkipped(w, s', ops[1..]);
      assert StaysBacklogged(cycle, s, ops, cycle[s.cursor]);
      LanesComplete(cycle[s.cursor]);
    }
  }
}
