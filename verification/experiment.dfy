/**
 * The trial loop of `main` in experiment.py and the summary counts it
 * derives. The trials themselves (resetting the server and launching the
 * concurrent attack) run elsewhere; their results are an input here, one
 * per trial, and the calls the loop makes are returned as a trace.
 */
module Experiment {
  import opened Wrappers

  /** What one attack returns: 200 count, 400 count, per-request jitter values. */
  datatype TrialResult = TrialResult(granted: nat, denied: nat, jitter: seq<real>)

  /** A call the loop makes, with the experiment id it passes. */
  datatype Call = ResetCall(experimentId: int) | AttackCall(experimentId: int)

  /** Which division in the summary raises `ZeroDivisionError`. */
  datatype DivisionByZero = SuccessRateByZero | AverageByZero

  /** The numbers the summary reports; ratios are exact, not rounded. */
  datatype Summary = Summary(
    numUnsuccessful: nat,
    successful: int,
    successRate: real,
    total200: int,
    total400: int,
    jitter: seq<real>,
    totalOverGrants: int,
    avgOverGrants: real)

  /** How many times `range(n)` iterates. */
  function Max0(n: int): nat {
    if n < 0 then 0 else n
  }

  /** The trials whose 400 count is exactly `legit400`: the unsuccessful exploits. */
  function CountUnsuccessful(rs: seq<TrialResult>, legit400: int): (c: nat)
    ensures c <= |rs|
    ensures c == |rs| <==> forall k :: 0 <= k < |rs| ==> rs[k].denied == legit400
    decreases |rs|
  {
    if rs == [] then 0
    else CountUnsuccessful(rs[..|rs| - 1], legit400) + (if rs[|rs| - 1].denied == legit400 then 1 else 0)
  }

  /** The indices of the unsuccessful trials. */
  function UnsuccessfulTrials(rs: seq<TrialResult>, legit400: int): set<nat> {
    set k: nat | k < |rs| && rs[k].denied == legit400
  }

  /** `sum(r[0] for r in results)`: never negative, and at least each trial's own 200 count. */
  function SumGranted(rs: seq<TrialResult>): (total: int)
    ensures total >= 0
    ensures forall k :: 0 <= k < |rs| ==> rs[k].granted <= total
    decreases |rs|
  {
    if rs == [] then 0 else SumGranted(rs[..|rs| - 1]) + rs[|rs| - 1].granted
  }

  /** `sum(r[1] for r in results)`: never negative, and at least each trial's own 400 count. */
  function SumDenied(rs: seq<TrialResult>): (total: int)
    ensures total >= 0
    ensures forall k :: 0 <= k < |rs| ==> rs[k].denied <= total
    decreases |rs|
  {
    if rs == [] then 0 else SumDenied(rs[..|rs| - 1]) + rs[|rs| - 1].denied
  }

  /** The total number of jitter values over all trials. */
  function JitterCount(rs: seq<TrialResult>): nat
    decreases |rs|
  {
    if rs == [] then 0 else JitterCount(rs[..|rs| - 1]) + |rs[|rs| - 1].jitter|
  }

  /** `[j for r in results for j in r[2]]`. */
  function Flatten(rs: seq<TrialResult>): (js: seq<real>)
    ensures |js| == JitterCount(rs)
    decreases |rs|
  {
    if rs == [] then [] else Flatten(rs[..|rs| - 1]) + rs[|rs| - 1].jitter
  }

  /** The calls of the first `k` trials: reset, then attack, each with the trial's 1-based id. */
  function CallTrace(k: nat): seq<Call> {
    if k == 0 then [] else CallTrace(k - 1) + [ResetCall(k), AttackCall(k)]
  }

  /** The trace alternates reset and attack, and the j-th pair carries id j + 1. */
  lemma {:induction false} CallTraceAt(k: nat, j: nat)
    requires j < 2 * k
    ensures |CallTrace(k)| == 2 * k
    ensures CallTrace(k)[j] == if j % 2 == 0 then ResetCall(j / 2 + 1) else AttackCall(j / 2 + 1)
  {
    if j < 2 * (k - 1) {
      CallTraceAt(k - 1, j);
    } else {
      CallTraceLength(k - 1);
    }
  }

  lemma {:induction false} CallTraceLength(k: nat)
    ensures |CallTrace(k)| == 2 * k
  {
    if k > 0 {
      CallTraceLength(k - 1);
    }
  }

  /** `q` is the quotient `a / b`: multiplying it back by `b` gives `a`. */
  predicate IsQuotient(q: real, a: int, b: int) {
    q * b as real == a as real
  }

  /** Python's `/` on integers, modelled by the exact rational quotient (its float rounding is not modelled). */
  function Ratio(a: int, b: int): (q: real)
    requires b != 0
    ensures IsQuotient(q, a, b)
    ensures 0 <= a <= b ==> 0.0 <= q <= 1.0
    ensures a == b ==> q == 1.0
  {
    a as real / b as real
  }

  /**
   * The summary numbers of a run in which neither division raises: at
   * least one experiment and at least one successful exploit.
   */
  function SummaryOf(numExperiments: int, trials: seq<TrialResult>, concurrentRequests: int, legitRequests: int)
    : (s: Summary)
    requires |trials| == Max0(numExperiments) && numExperiments != 0
    requires numExperiments - CountUnsuccessful(trials, concurrentRequests - legitRequests) != 0
    // The counts: trials whose 400 count is N - M are unsuccessful, the rest successful.
    ensures s.numUnsuccessful == CountUnsuccessful(trials, concurrentRequests - legitRequests)
    ensures s.successful == numExperiments - s.numUnsuccessful
    ensures IsQuotient(s.successRate, s.successful, numExperiments)
    // The totals over all results, and the jitter values of all trials in order.
    ensures s.total200 == SumGranted(trials) && s.total400 == SumDenied(trials)
    ensures s.jitter == Flatten(trials)
    // Over-grants are the 200s beyond M per trial; the average is per successful trial.
    ensures s.totalOverGrants == s.total200 - numExperiments * legitRequests
    ensures IsQuotient(s.avgOverGrants, s.totalOverGrants, s.successful)
  {
    var numUnsuccessful := CountUnsuccessful(trials, concurrentRequests - legitRequests);
    var successful := numExperiments - numUnsuccessful;
    var successRate := Ratio(successful, numExperiments);
    var total200 := SumGranted(trials);
    var total400 := SumDenied(trials);
    var jitter := Flatten(trials);
    var totalOverGrants := total200 - numExperiments * legitRequests;
    Summary(numUnsuccessful, successful, successRate, total200, total400, jitter,
            totalOverGrants, Ratio(totalOverGrants, successful))
  }

  /**
   * The summary of `numExperiments` trials with results `trials`, where
   * `concurrentRequests` requests were sent per trial and
   * `legitRequests` of them are legitimate; or the division by zero the
   * summary raises.
   */
  function Summarize(numExperiments: int, trials: seq<TrialResult>, concurrentRequests: int, legitRequests: int)
    : (r: Result<Summary, DivisionByZero>)
    requires |trials| == Max0(numExperiments)
    // No experiments: the success rate divides by zero.
    ensures numExperiments == 0 ==> r == Failure(SuccessRateByZero)
    // With experiments, the only division that can raise is the average.
    ensures numExperiments != 0 && r.Failure? ==> r.error == AverageByZero
    // Otherwise the summary exists exactly when some trial was a successful exploit.
    ensures numExperiments > 0 ==>
      (r.Success? <==> exists k :: 0 <= k < |trials| && trials[k].denied != concurrentRequests - legitRequests)
    // The success rate is a ratio in [0, 1].
    ensures r.Success? ==> 0.0 <= r.value.successRate <= 1.0
    // A negative count runs no trial, and the summary still goes ahead with rate 1.
    ensures numExperiments < 0 ==> r.Success? && r.value.successRate == 1.0
    ensures r.Success? && numExperiments > 0 ==>
      0 < r.value.successful <= numExperiments &&
      IsQuotient(r.value.successRate, r.value.successful, numExperiments)
    // The counts: trials whose 400 count is N - M are unsuccessful, the rest successful.
    ensures r.Success? ==>
      && r.value.numUnsuccessful == CountUnsuccessful(trials, concurrentRequests - legitRequests)
      && r.value.successful == numExperiments - r.value.numUnsuccessful
    // The totals over all results, and the jitter values of all trials in order.
    ensures r.Success? ==>
      && r.value.total200 == SumGranted(trials)
      && r.value.total400 == SumDenied(trials)
      && r.value.jitter == Flatten(trials)
    // Over-grants are the 200s beyond M per trial; the average is per successful trial.
    ensures r.Success? ==>
      && r.value.totalOverGrants == r.value.total200 - numExperiments * legitRequests
      && IsQuotient(r.value.avgOverGrants, r.value.totalOverGrants, r.value.successful)
  {
    var numUnsuccessful := CountUnsuccessful(trials, concurrentRequests - legitRequests);
    var successful := numExperiments - numUnsuccessful;
    if numExperiments == 0 then
      Failure(SuccessRateByZero)
    else if successful == 0 then
      Failure(AverageByZero)
    else
      Success(SummaryOf(numExperiments, trials, concurrentRequests, legitRequests))
  }

  /** The count of unsuccessful trials is the number of trials whose 400 count is `legit400`, and no other. */
  lemma {:induction false} UnsuccessfulCountIsExact(rs: seq<TrialResult>, legit400: int)
    ensures CountUnsuccessful(rs, legit400) == |UnsuccessfulTrials(rs, legit400)|
    decreases |rs|
  {
    if rs != [] {
      var n := |rs| - 1;
      var prefix := rs[..n];
      UnsuccessfulCountIsExact(prefix, legit400);
      var before := UnsuccessfulTrials(prefix, legit400);
      assert n !in before;
      if rs[n].denied == legit400 {
        assert UnsuccessfulTrials(rs, legit400) == before + {n};
      } else {
        assert UnsuccessfulTrials(rs, legit400) == before;
      }
    }
  }

  /** Flattening distributes over concatenation of result lists. */
  lemma {:induction false} FlattenAppend(a: seq<TrialResult>, b: seq<TrialResult>)
    ensures Flatten(a + b) == Flatten(a) + Flatten(b)
    decreases |b|
  {
    if b == [] {
      assert a + b == a;
    } else {
      var n := |b| - 1;
      assert (a + b)[..|a + b| - 1] == a + b[..n];
      FlattenAppend(a, b[..n]);
    }
  }

  /**
   * The flattened list keeps every trial's jitter values in order: value
   * j of trial k sits after the values of trials 0..k-1.
   */
  lemma FlattenAt(rs: seq<TrialResult>, k: nat, j: nat)
    requires k < |rs| && j < |rs[k].jitter|
    ensures JitterCount(rs[..k]) + j < |Flatten(rs)|
    ensures Flatten(rs)[JitterCount(rs[..k]) + j] == rs[k].jitter[j]
  {
    assert rs == rs[..k + 1] + rs[k + 1..];
    FlattenAppend(rs[..k + 1], rs[k + 1..]);
    assert rs[..k + 1][..k] == rs[..k];
  }

  /**
   * When every trial grants exactly `legitRequests`, the summary (when
   * there is one) reports no over-grants.
   */
  lemma ExactGrantsNoOverGrant(numExperiments: int, trials: seq<TrialResult>, concurrentRequests: int, legitRequests: int)
    requires numExperiments >= 0 && |trials| == numExperiments
    requires forall k :: 0 <= k < |trials| ==> trials[k].granted == legitRequests
    ensures var r := Summarize(numExperiments, trials, concurrentRequests, legitRequests);
      r.Success? ==> r.value.totalOverGrants == 0 && r.value.avgOverGrants == 0.0
  {
    SumGrantedEach(trials, legitRequests);
  }

  /**
   * A run in which every trial over-grants by exactly one (M + 1 granted,
   * N - M - 1 denied): every trial is a successful exploit, the success
   * rate is 1, and the average over-grant per success is 1.
   */
  lemma OverGrantByOneAverage(numExperiments: int, trials: seq<TrialResult>, concurrentRequests: int, legitRequests: int)
    requires numExperiments > 0 && |trials| == numExperiments
    requires forall k :: 0 <= k < |trials| ==>
      trials[k].granted == legitRequests + 1 && trials[k].denied == concurrentRequests - legitRequests - 1
    ensures var r := Summarize(numExperiments, trials, concurrentRequests, legitRequests);
      && r.Success?
      && r.value.numUnsuccessful == 0
      && r.value.successful == numExperiments
      && r.value.successRate == 1.0
      && r.value.totalOverGrants == numExperiments
      && r.value.avgOverGrants == 1.0
  {
    assert trials[0].denied != concurrentRequests - legitRequests;
    UnsuccessfulCountIsExact(trials, concurrentRequests - legitRequests);
    assert UnsuccessfulTrials(trials, concurrentRequests - legitRequests) == {};
    SumGrantedEach(trials, legitRequests + 1);
    assert numExperiments * (legitRequests + 1) - numExperiments * legitRequests == numExperiments;
  }

  lemma {:induction false} SumGrantedEach(rs: seq<TrialResult>, g: int)
    requires forall k :: 0 <= k < |rs| ==> rs[k].granted == g
    ensures SumGranted(rs) == |rs| * g
    decreases |rs|
  {
    if rs != [] {
      SumGrantedEach(rs[..|rs| - 1], g);
    }
  }

  /**
   * The trial loop of `main`: trial i (from 1) resets the counter with
   * id i, attacks with id i and gets `trials[i - 1]` back, which it
   * appends to `results` and classifies.
   */
  method RunTrials(numExperiments: int, concurrentRequests: int, legitRequests: int, trials: seq<TrialResult>)
    returns (trace: seq<Call>, results: seq<TrialResult>, numUnsuccessful: nat)
    requires |trials| == Max0(numExperiments)
    // One result per trial, in trial order.
    ensures results == trials
    // Each trial resets the counter and then attacks, both with its 1-based id.
    ensures trace == CallTrace(|trials|)
    // A trial is unsuccessful exactly when its 400 count is N - M.
    ensures numUnsuccessful == CountUnsuccessful(trials, concurrentRequests - legitRequests)
  {
    results := [];
    numUnsuccessful := 0;
    trace := [];
    var i := 0;
    while i < numExperiments
      invariant 0 <= i <= |trials|
      invariant results == trials[..i]
      invariant numUnsuccessful == CountUnsuccessful(results, concurrentRequests - legitRequests)
      invariant trace == CallTrace(i)
    {
      trace := trace + [ResetCall(i + 1)];
      var result := trials[i];
      trace := trace + [AttackCall(i + 1)];
      results := results + [result];
      assert results[..|results| - 1] == trials[..i];
      var legitNum400 := concurrentRequests - legitRequests;
      if result.denied == legitNum400 {
        numUnsuccessful := numUnsuccessful + 1;
      }
      i := i + 1;
    }
    assert i == |trials|;
  }

  /**
   * `main`: run the trials, then summarise. `concurrentRequests` and
   * `legitRequests` are `exploit.CONCURRENT_REQUESTS` and
   * `LEGIT_NUM_REQUESTS`.
   */
  method RunExperiments(numExperiments: int, concurrentRequests: int, legitRequests: int, trials: seq<TrialResult>)
    returns (trace: seq<Call>, outcome: Result<Summary, DivisionByZero>)
    requires |trials| == Max0(numExperiments)
    ensures trace == CallTrace(|trials|)
    ensures outcome == Summarize(numExperiments, trials, concurrentRequests, legitRequests)
  {
    var results, numUnsuccessful;
    trace, results, numUnsuccessful := RunTrials(numExperiments, concurrentRequests, legitRequests, trials);
    var jitterLs: seq<real> := [];
    var successful := numExperiments - numUnsuccessful;
    if numExperiments == 0 {
      outcome := Failure(SuccessRateByZero);
      return;
    }
    var successRate := Ratio(successful, numExperiments);
    var total200 := SumGranted(results);
    var total400 := SumDenied(results);
    jitterLs := jitterLs + Flatten(results);
    assert jitterLs == Flatten(trials);
    var totalOverGrants := total200 - numExperiments * legitRequests;
    if successful == 0 {
      outcome := Failure(AverageByZero);
      return;
    }
    outcome := Success(Summary(numUnsuccessful, successful, successRate, total200, total400, jitterLs,
                               totalOverGrants, Ratio(totalOverGrants, successful)));
  }
}
