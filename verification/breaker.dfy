/** Circuit breakers: the stored counters are a summary of each provider's recent history. */
module Breaker {
  import opened Wrappers

  datatype CircuitState = CircuitState(consecutiveFailures: int, openedAt: Option<real>)

  datatype CircuitError = CircuitOpen

  const FRESH := CircuitState(0, None)

  /** Open and still inside the recovery window. */
  predicate Refuses(window: real, s: CircuitState, now: real) {
    s.openedAt.Some? && now - s.openedAt.value < window
  }

  // --------------------------------------------------- history of one provider

  datatype Mark = Failed(at: real) | Succeeded | Asked(at: real)

  ghost function Next(threshold: int, window: real, s: CircuitState, m: Mark): CircuitState {
    match m
    case Succeeded => FRESH
    case Failed(at) =>
      var n := s.consecutiveFailures + 1;
      CircuitState(n, if n >= threshold then Some(at) else s.openedAt)
    case Asked(at) => if s.openedAt.None? || Refuses(window, s, at) then s else FRESH
  }

  ghost function After(threshold: int, window: real, h: seq<Mark>): CircuitState {
    if h == [] then FRESH else Next(threshold, window, After(threshold, window, h[..|h| - 1]), h[|h| - 1])
  }

  /** Time of the latest failure. */
  ghost function LastFailure(h: seq<Mark>): Option<real> {
    if h == [] then None
    else if h[|h| - 1].Failed? then Some(h[|h| - 1].at) else LastFailure(h[..|h| - 1])
  }

  ghost function Failures(h: seq<Mark>): nat {
    if h == [] then 0 else Failures(h[..|h| - 1]) + if h[|h| - 1].Failed? then 1 else 0
  }

  /** Where the current run begins: after the last success, or the last ask that found a tripped run recovered. */
  ghost function RunStart(threshold: int, window: real, h: seq<Mark>): (k: nat)
    ensures k <= |h|
    decreases |h|, 0
  {
    if h == [] then 0
    else
      var p, last := h[..|h| - 1], h[|h| - 1];
      if last.Succeeded? || (last.Asked? && Recovers(threshold, window, p, last.at)) then |h|
      else RunStart(threshold, window, p)
  }

  /** An ask at `now` finds at least `threshold` failures in the run, the latest at least a window ago. */
  ghost predicate Recovers(threshold: int, window: real, h: seq<Mark>, now: real)
    decreases |h|, 1
  {
    && Failures(h[RunStart(threshold, window, h)..]) >= threshold
    && LastFailure(h).Some? && now - LastFailure(h).value >= window
  }

  lemma RunGrows(threshold: int, window: real, h: seq<Mark>)
    requires h != []
    ensures var p, k := h[..|h| - 1], RunStart(threshold, window, h);
            Failures(h[k..]) == if k == |h| then 0 else Failures(p[k..]) + if h[|h| - 1].Failed? then 1 else 0
  {
    var p, k := h[..|h| - 1], RunStart(threshold, window, h);
    if k < |h| {
      assert h[k..][..|h[k..]| - 1] == p[k..];
    }
  }

  lemma {:induction false} FailureInRun(h: seq<Mark>)
    requires Failures(h) > 0
    ensures LastFailure(h).Some?
    decreases |h|
  {
    if !h[|h| - 1].Failed? {
      FailureInRun(h[..|h| - 1]);
    }
  }

  lemma {:induction false} LastFailureOfSuffix(h: seq<Mark>, k: nat)
    requires k <= |h| && LastFailure(h[k..]).Some?
    ensures LastFailure(h) == LastFailure(h[k..])
    decreases |h|
  {
    if !h[|h| - 1].Failed? {
      assert h[k..][..|h[k..]| - 1] == h[..|h| - 1][k..];
      LastFailureOfSuffix(h[..|h| - 1], k);
    }
  }

  /**
    * The counters after any history: the failures of the current run, open since the latest one once
    * they reach the threshold.
    */
  ghost predicate Summarises(threshold: int, window: real, h: seq<Mark>) {
    var run := h[RunStart(threshold, window, h)..];
    After(threshold, window, h)
    == CircuitState(Failures(run), if Failures(run) >= threshold then LastFailure(h) else None)
  }

  lemma {:induction false} HistoryOfBreaker(threshold: int, window: real, h: seq<Mark>)
    requires threshold >= 1
    ensures Summarises(threshold, window, h)
    ensures var run := h[RunStart(threshold, window, h)..]; Failures(run) >= threshold ==> LastFailure(h).Some?
    decreases |h|
  {
    var run := h[RunStart(threshold, window, h)..];
    if h != [] {
      HistoryOfBreaker(threshold, window, h[..|h| - 1]);
      RunGrows(threshold, window, h);
    }
    if Failures(run) >= threshold {
      FailureInRun(run);
      LastFailureOfSuffix(h, RunStart(threshold, window, h));
    }
  }

  /** The summary is right for every history exactly when the threshold is at least one. */
  lemma SummaryIffPositiveThreshold(threshold: int, window: real)
    ensures (forall h: seq<Mark> :: Summarises(threshold, window, h)) <==> threshold >= 1
  {
    if threshold >= 1 {
      forall h: seq<Mark> ensures Summarises(threshold, window, h) {
        HistoryOfBreaker(threshold, window, h);
      }
    } else {
      var h := [Failed(0.0), Succeeded];
      assert h[..1] == [Failed(0.0)] && h[2..] == [];
      assert LastFailure(h[..1]) == Some(0.0);
      assert RunStart(threshold, window, h) == 2 && LastFailure(h) == Some(0.0);
      assert !Summarises(threshold, window, h);
    }
  }

  /** A failure while open restarts the recovery window. */
  lemma FailureRestartsWindow(threshold: int, window: real, h: seq<Mark>, at: real, now: real)
    requires threshold >= 1 && After(threshold, window, h).openedAt.Some?
    ensures Refuses(window, After(threshold, window, h + [Failed(at)]), now) <==> now - at < window
  {
    assert (h + [Failed(at)])[..|h|] == h;
    HistoryOfBreaker(threshold, window, h);
  }

  /** The run has tripped: it holds at least `threshold` failures. */
  ghost predicate Tripped(threshold: int, window: real, h: seq<Mark>) {
    Failures(h[RunStart(threshold, window, h)..]) >= threshold
  }

  /** Refusals read off the history: the run has tripped and its latest failure is less than a window ago. */
  lemma RefusesIffTripped(threshold: int, window: real, h: seq<Mark>, now: real)
    requires threshold >= 1
    ensures Tripped(threshold, window, h) ==> LastFailure(h).Some?
    ensures Refuses(window, After(threshold, window, h), now)
       <==> Tripped(threshold, window, h) && now - LastFailure(h).value < window
    ensures After(threshold, window, h).openedAt.Some? <==> Tripped(threshold, window, h)
    ensures Tripped(threshold, window, h) ==> Failures(h) >= threshold
  {
    HistoryOfBreaker(threshold, window, h);
    FailuresOfSuffix(h, RunStart(threshold, window, h));
  }

  lemma {:induction false} FailuresOfSuffix(h: seq<Mark>, k: nat)
    requires k <= |h|
    ensures Failures(h[k..]) <= Failures(h)
    decreases |h|
  {
    if k < |h| {
      assert h[k..][..|h[k..]| - 1] == h[..|h| - 1][k..];
      FailuresOfSuffix(h[..|h| - 1], k);
    }
  }

  // ---------------------------------------------------------------- registry

  class CircuitBreakerRegistry {
    const threshold: int
    const window: real
    var states: map<string, CircuitState>
    ghost var log: map<string, seq<Mark>>

    ghost predicate Valid()
      reads this
    {
      Tracks(threshold, window, states, log)
    }

    constructor (threshold: int, window: real)
      ensures Valid() && this.threshold == threshold && this.window == window && log == map[]
    {
      this.threshold, this.window := threshold, window;
      states, log := map[], map[];
    }

    /** Raises exactly while the circuit refuses; an ask after the window closes it again. */
    method AssertAvailable(provider: string, now: real) returns (r: Result<(), CircuitError>)
      requires Valid()
      modifies this
      ensures Valid()
      ensures r.Raised? <==> Refuses(window, After(threshold, window, LogOf(old(log), provider)), now)
      ensures threshold >= 1 ==>
                var h := LogOf(old(log), provider);
                && (Tripped(threshold, window, h) ==> LastFailure(h).Some?)
                && (r.Raised? <==> Tripped(threshold, window, h) && now - LastFailure(h).value < window)
      ensures threshold >= 1 && Failures(LogOf(old(log), provider)) < threshold ==> r == Returned(())
      ensures log == Marked(old(log), provider, Asked(now))
    {
      if threshold >= 1 {
        RefusesIffTripped(threshold, window, LogOf(log, provider), now);
      }
      KeepsLog(threshold, window, states, log, provider, Asked(now));
      var state := Stored(states, provider);
      assert state == After(threshold, window, LogOf(log, provider));
      log := Marked(log, provider, Asked(now));
      states := states[provider := state];
      if state.openedAt.None? {
        return Returned(());
      }
      if now - state.openedAt.value < window {
        return Raised(CircuitOpen);
      }
      states := states[provider := FRESH];
      assert states == old(states)[provider := FRESH];
      r := Returned(());
    }

    /** True exactly when `AssertAvailable` at the same moment would not raise; changes nothing. */
    method IsAvailable(provider: string, now: real) returns (ok: bool)
      requires Valid()
      ensures ok <==> !Refuses(window, After(threshold, window, LogOf(log, provider)), now)
      ensures threshold >= 1 ==>
                var h := LogOf(log, provider);
                && (Tripped(threshold, window, h) ==> LastFailure(h).Some?)
                && (ok <==> !(Tripped(threshold, window, h) && now - LastFailure(h).value < window))
      ensures threshold >= 1 && Failures(LogOf(log, provider)) < threshold ==> ok
    {
      if threshold >= 1 {
        RefusesIffTripped(threshold, window, LogOf(log, provider), now);
      }
      assert Stored(states, provider) == After(threshold, window, LogOf(log, provider));
      if provider !in states || states[provider].openedAt.None? {
        return true;
      }
      ok := now - states[provider].openedAt.value >= window;
    }

    method IsHalfOpen(provider: string, now: real) returns (ok: bool)
      requires Valid()
      ensures var s := After(threshold, window, LogOf(log, provider));
              ok <==> s.openedAt.Some? && !Refuses(window, s, now)
      ensures threshold >= 1 ==>
                var h := LogOf(log, provider);
                && (Tripped(threshold, window, h) ==> LastFailure(h).Some?)
                && (ok <==> Tripped(threshold, window, h) && now - LastFailure(h).value >= window)
    {
      if threshold >= 1 {
        RefusesIffTripped(threshold, window, LogOf(log, provider), now);
      }
      assert Stored(states, provider) == After(threshold, window, LogOf(log, provider));
      if provider !in states || states[provider].openedAt.None? {
        return false;
      }
      ok := now - states[provider].openedAt.value >= window;
    }

    method RecordSuccess(provider: string)
      requires Valid()
      modifies this
      ensures Valid() && log == Marked(old(log), provider, Succeeded)
    {
      KeepsLog(threshold, window, states, log, provider, Succeeded);
      states := states[provider := FRESH];
      log := Marked(log, provider, Succeeded);
    }

    method RecordFailure(provider: string, now: real)
      requires Valid()
      modifies this
      ensures Valid() && log == Marked(old(log), provider, Failed(now))
    {
      KeepsLog(threshold, window, states, log, provider, Failed(now));
      var state := Stored(states, provider);
      state := state.(consecutiveFailures := state.consecutiveFailures + 1);
      if state.consecutiveFailures >= threshold {
        state := state.(openedAt := Some(now));
      }
      states := states[provider := state];
      log := Marked(log, provider, Failed(now));
    }
  }

  function Stored(states: map<string, CircuitState>, p: string): CircuitState {
    if p in states then states[p] else FRESH
  }

  ghost function LogOf(log: map<string, seq<Mark>>, p: string): seq<Mark> {
    if p in log then log[p] else []
  }

  ghost function Marked(log: map<string, seq<Mark>>, p: string, m: Mark): map<string, seq<Mark>> {
    log[p := LogOf(log, p) + [m]]
  }

  ghost predicate Tracks(threshold: int, window: real, states: map<string, CircuitState>, log: map<string, seq<Mark>>) {
    forall p: string :: Stored(states, p) == After(threshold, window, LogOf(log, p))
  }

  lemma KeepsLog(threshold: int, window: real, states: map<string, CircuitState>, log: map<string, seq<Mark>>,
                 p: string, m: Mark)
    requires Tracks(threshold, window, states, log)
    ensures Tracks(threshold, window, states[p := Next(threshold, window, Stored(states, p), m)], Marked(log, p, m))
  {
    var states', log' := states[p := Next(threshold, window, Stored(states, p), m)], Marked(log, p, m);
    forall q: string ensures Stored(states', q) == After(threshold, window, LogOf(log', q)) {
      assert Stored(states, q) == After(threshold, window, LogOf(log, q));
      if q == p {
        assert LogOf(log', q)[..|LogOf(log', q)| - 1] == LogOf(log, q);
      }
    }
  }
}
