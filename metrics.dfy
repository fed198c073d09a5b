// Execution counters of commands and lists (pkg/backy/metrics.go). The
// floating-point fields and the JSON file are not part of this model.
module Metrics {
  /** uint64 arithmetic wraps around at this modulus. */
  const U64: int := 0x1_0000_0000_0000_0000

  predicate IsU64(n: int) { 0 <= n < U64 }

  /** Go's uint64. */
  type Counter = n: int | IsU64(n)

  function Inc64(n: int): (r: int)
    requires IsU64(n)
    ensures IsU64(r)
    ensures n + 1 < U64 ==> r == n + 1
    ensures n + 1 == U64 ==> r == 0
  {
    (n + 1) % U64
  }

  /** Counting one more run on either side advances the total by one, modulo 2^64. */
  lemma IncSum(a: int, b: int)
    requires IsU64(a) && IsU64(b)
    ensures (Inc64(a) + b) % U64 == Inc64((a + b) % U64)
    ensures (b + Inc64(a)) % U64 == Inc64((b + a) % U64)
  {
    if a + 1 < U64 {
      if a + b >= U64 {
        assert (a + b) % U64 == a + b - U64;
        assert (a + 1 + b) % U64 == a + 1 + b - U64;
      }
    } else {
      if b > 0 {
        assert (a + b) % U64 == b - 1;
      }
    }
  }

  class Metrics {
    var dateStartedLast: string
    var dateLastFinished: string
    var dateLastFinishedSuccessfully: string
    var successfulExecutions: Counter
    var failedExecutions: Counter
    var totalExecutions: Counter

    /** Every run is counted once as a success or a failure (modulo 2^64). */
    predicate Valid()
      reads this
    {
      totalExecutions == (successfulExecutions + failedExecutions) % U64
    }

    /** NewMetrics: `now` is the RFC 3339 rendering of the current time. */
    constructor (now: string)
      ensures Valid()
      ensures dateStartedLast == now && dateLastFinished == "" && dateLastFinishedSuccessfully == ""
      ensures successfulExecutions == 0 && failedExecutions == 0 && totalExecutions == 0
    {
      dateStartedLast := now;
      dateLastFinished := "";
      dateLastFinishedSuccessfully := "";
      successfulExecutions := 0;
      failedExecutions := 0;
      totalExecutions := 0;
    }

    /** Update: `finished` is the RFC 3339 rendering of the finish time. */
    method Update(success: bool, finished: string)
      modifies this
      ensures old(Valid()) ==> Valid()
      ensures totalExecutions == Inc64(old(totalExecutions))
      ensures success ==> successfulExecutions == Inc64(old(successfulExecutions)) && failedExecutions == old(failedExecutions)
      ensures !success ==> failedExecutions == Inc64(old(failedExecutions)) && successfulExecutions == old(successfulExecutions)
      ensures dateLastFinished == finished
      ensures dateStartedLast == old(dateStartedLast)
      ensures dateLastFinishedSuccessfully == old(dateLastFinishedSuccessfully)
    {
      totalExecutions := Inc64(totalExecutions);
      if success {
        IncSum(successfulExecutions, failedExecutions);
        successfulExecutions := Inc64(successfulExecutions);
      } else {
        IncSum(failedExecutions, successfulExecutions);
        failedExecutions := Inc64(failedExecutions);
      }
      dateLastFinished := finished;
    }
  }

  /** The counters after a sequence of runs, starting from NewMetrics. */
  function Successes(runs: seq<bool>): nat
  {
    if |runs| == 0 then 0 else Successes(runs[..|runs| - 1]) + (if runs[|runs| - 1] then 1 else 0)
  }

  function Failures(runs: seq<bool>): nat
  {
    if |runs| == 0 then 0 else Failures(runs[..|runs| - 1]) + (if runs[|runs| - 1] then 0 else 1)
  }

  lemma {:induction false} SuccessesPlusFailures(runs: seq<bool>)
    ensures Successes(runs) + Failures(runs) == |runs|
  {
    if |runs| > 0 {
      SuccessesPlusFailures(runs[..|runs| - 1]);
    }
  }

  /** Fresh metrics updated once per run count every run exactly (below 2^64 runs). */
  method RecordRuns(now: string, runs: seq<bool>, finished: string) returns (m: Metrics)
    requires |runs| < U64
    ensures fresh(m) && m.Valid()
    ensures m.totalExecutions == |runs|
    ensures m.successfulExecutions == Successes(runs) && m.failedExecutions == Failures(runs)
  {
    m := new Metrics(now);
    var i := 0;
    while i < |runs|
      invariant 0 <= i <= |runs|
      invariant m.Valid()
      invariant m.totalExecutions == i
      invariant m.successfulExecutions == Successes(runs[..i]) && m.failedExecutions == Failures(runs[..i])
    {
      SuccessesPlusFailures(runs[..i]);
      assert runs[..i + 1][..i] == runs[..i];
      m.Update(runs[i], finished);
      i := i + 1;
    }
    assert runs[..i] == runs;
  }

  class MetricFile {
    var filename: string
    var commandMetrics: map<string, Metrics>
    var listMetrics: map<string, Metrics>

    /** NewMetricsFromFile */
    constructor (filename: string)
      ensures this.filename == filename && commandMetrics == map[] && listMetrics == map[]
    {
      this.filename := filename;
      commandMetrics := map[];
      listMetrics := map[];
    }
  }
}
