/** Live-attempt counters: begin and finish around every provider call. */
module Inflight {
  type Counters = map<string, nat>

  function Load(m: Counters, key: string): nat {
    if key in m then m[key] else 0
  }

  function Begin(m: Counters, key: string): Counters {
    m[key := Load(m, key) + 1]
  }

  function Finish(m: Counters, key: string): Counters {
    var current := Load(m, key);
    if current <= 1 then m - {key} else m[key := current - 1]
  }

  /** No entry is kept for an idle key. */
  ghost predicate Positive(m: Counters) {
    forall k <- m :: m[k] >= 1
  }

  lemma FinishUndoesBegin(m: Counters, key: string)
    requires Positive(m)
    ensures Finish(Begin(m, key), key) == m && Positive(Begin(m, key))
  {
    if key !in m {
      assert m[key := 1] - {key} == m;
    }
  }

  datatype Mark = Opened(key: string) | Closed(key: string)

  ghost function Apply(m: Counters, marks: seq<Mark>): Counters {
    if marks == [] then m
    else
      var last := marks[|marks| - 1];
      var before := Apply(m, marks[..|marks| - 1]);
      if last.Opened? then Begin(before, last.key) else Finish(before, last.key)
  }

  /** Attempts on the key that are begun and not yet finished. */
  ghost function Open(marks: seq<Mark>, key: string): int {
    if marks == [] then 0
    else
      Open(marks[..|marks| - 1], key)
      + if marks[|marks| - 1].key != key then 0 else if marks[|marks| - 1].Opened? then 1 else -1
  }

  ghost predicate NeverClosesEarly(marks: seq<Mark>) {
    forall n, key | 0 <= n <= |marks| :: Open(marks[..n], key) >= 0
  }

  /** However concurrent requests interleave, a counter is the number of open attempts. */
  lemma {:induction false} CountersAreOpenAttempts(marks: seq<Mark>, key: string)
    requires NeverClosesEarly(marks)
    ensures Load(Apply(map[], marks), key) == Open(marks, key)
    ensures Positive(Apply(map[], marks))
    decreases |marks|
  {
    if marks != [] {
      var p, last := marks[..|marks| - 1], marks[|marks| - 1];
      assert NeverClosesEarly(p) by {
        forall n, k | 0 <= n <= |p| ensures Open(p[..n], k) >= 0 {
          assert p[..n] == marks[..n];
        }
      }
      CountersAreOpenAttempts(p, key);
      CountersAreOpenAttempts(p, last.key);
      assert marks[..|marks|] == marks;
      assert Open(marks[..|marks|], last.key) >= 0;
    }
  }
}
