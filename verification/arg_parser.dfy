/**
 * The decision logic of `parse_args` in arg_parser.py: how the flags that
 * argparse has already parsed become the experiment configuration.
 * Python truthiness is written out: a flag given as 0, 0.0 or the empty
 * string counts as absent.
 */
module ArgParser {
  import opened Wrappers

  /** Default number of experiments when `-n` is not given. */
  const NUM_EXPERIMENTS: int := 100
  /** Concurrency used when `-c` is absent or 0. */
  const DEFAULT_CONCURRENCY: int := 2

  /** The kind of network latency to simulate. */
  datatype LatencyType = NoLatency | Consistent | Jitter | JitterNormal

  /**
   * The parsed command line. An absent flag is `None`; `silent` is a
   * store-true switch. `jitterNormDist` holds the pair that the
   * non-empty `-jn` string evaluates to (an empty string is `None`).
   * `numExperiments` is `None` when `-n` was not given.
   */
  datatype Flags = Flags(
    ip: Option<string>,
    concurrent: Option<int>,
    silent: bool,
    delay: Option<real>,
    jitter: Option<real>,
    jitterNormDist: Option<(real, real)>,
    numExperiments: Option<int>)

  /** The tuple that `parse_args` returns; latency parameters are in seconds. */
  datatype Config = Config(
    latencyType: LatencyType,
    latencyParams: seq<real>,
    numExperiments: int,
    verbose: bool,
    concurrency: int,
    serverIp: Option<string>)

  /** The `ValueError` raised when more than one latency mode is selected. */
  datatype ConfigError = MoreThanOneLatencyType

  /** Python truthiness of an optional float flag. */
  predicate Truthy(x: Option<real>) {
    x.Some? && x.value != 0.0
  }

  /** Python truthiness of an optional int flag. */
  predicate TruthyInt(x: Option<int>) {
    x.Some? && x.value != 0
  }

  /** Python truthiness of an optional string flag. */
  predicate TruthyString(x: Option<string>) {
    x.Some? && x.value != ""
  }

  function OneIf(b: bool): int {
    if b then 1 else 0
  }

  /** Milliseconds to seconds. */
  function ToSeconds(ms: real): real {
    ms / 1000.0
  }

  /**
   * The configuration chosen from `f`, or the error for more than one
   * latency mode. `multipleExperiments` is the argument of `parse_args`
   * that registers the `-n` flag.
   */
  function ParseArgs(f: Flags, multipleExperiments: bool): (r: Result<Config, ConfigError>)
    // At most one latency mode may be selected.
    ensures r.Failure? <==>
      (Truthy(f.delay) && Truthy(f.jitter)) ||
      (Truthy(f.delay) && f.jitterNormDist.Some?) ||
      (Truthy(f.jitter) && f.jitterNormDist.Some?)
    // No latency flag selects no latency, with no parameters.
    ensures r.Success? && !Truthy(f.delay) && !Truthy(f.jitter) && f.jitterNormDist.None? ==>
      r.value.latencyType == NoLatency && r.value.latencyParams == []
    // Each flag alone selects its mode, with its values converted to seconds.
    ensures Truthy(f.delay) && !Truthy(f.jitter) && f.jitterNormDist.None? ==>
      r.Success? && r.value.latencyType == Consistent &&
      r.value.latencyParams == [f.delay.value / 1000.0]
    ensures Truthy(f.jitter) && !Truthy(f.delay) && f.jitterNormDist.None? ==>
      r.Success? && r.value.latencyType == Jitter &&
      r.value.latencyParams == [f.jitter.value / 1000.0]
    ensures f.jitterNormDist.Some? && !Truthy(f.delay) && !Truthy(f.jitter) ==>
      r.Success? && r.value.latencyType == JitterNormal &&
      r.value.latencyParams == [f.jitterNormDist.value.0 / 1000.0, f.jitterNormDist.value.1 / 1000.0]
    // The selected mode always comes with its parameters: none, one or two.
    ensures r.Success? ==>
      |r.value.latencyParams| == match r.value.latencyType
        case NoLatency => 0
        case Consistent => 1
        case Jitter => 1
        case JitterNormal => 2
    // The other fields do not depend on the latency flags.
    ensures r.Success? ==>
      && r.value.verbose == !f.silent
      && (TruthyInt(f.concurrent) ==> r.value.concurrency == f.concurrent.value)
      && (!TruthyInt(f.concurrent) ==> r.value.concurrency == DEFAULT_CONCURRENCY)
      && (TruthyString(f.ip) ==> r.value.serverIp == f.ip)
      && (!TruthyString(f.ip) ==> r.value.serverIp == None)
      && (!multipleExperiments ==> r.value.numExperiments == 0)
      && (multipleExperiments && f.numExperiments.None? ==> r.value.numExperiments == NUM_EXPERIMENTS)
      && (multipleExperiments && f.numExperiments.Some? ==> r.value.numExperiments == f.numExperiments.value)
  {
    var numExperiments :=
      if multipleExperiments then (if f.numExperiments.Some? then f.numExperiments.value else NUM_EXPERIMENTS)
      else 0;
    var verbose := !f.silent;
    var concurrency := if TruthyInt(f.concurrent) then f.concurrent.value else DEFAULT_CONCURRENCY;
    var serverIp := if TruthyString(f.ip) then f.ip else None;
    var typeFlags := OneIf(Truthy(f.delay)) + OneIf(Truthy(f.jitter)) + OneIf(f.jitterNormDist.Some?);
    if typeFlags > 1 then
      Failure(MoreThanOneLatencyType)
    else
      var (t0, p0) := (NoLatency, []);
      var (t1, p1) := if Truthy(f.delay) then (Consistent, [ToSeconds(f.delay.value)]) else (t0, p0);
      var (t2, p2) := if Truthy(f.jitter) then (Jitter, [ToSeconds(f.jitter.value)]) else (t1, p1);
      var (t3, p3) :=
        if f.jitterNormDist.Some?
        then (JitterNormal, [ToSeconds(f.jitterNormDist.value.0), ToSeconds(f.jitterNormDist.value.1)])
        else (t2, p2);
      Success(Config(t3, p3, numExperiments, verbose, concurrency, serverIp))
  }

  /** A zero delay or jitter is falsy: giving it is the same as leaving the flag out. */
  lemma ZeroFlagIsAbsent(f: Flags, multipleExperiments: bool)
    ensures ParseArgs(f.(delay := Some(0.0)), multipleExperiments) == ParseArgs(f.(delay := None), multipleExperiments)
    ensures ParseArgs(f.(jitter := Some(0.0)), multipleExperiments) == ParseArgs(f.(jitter := None), multipleExperiments)
    ensures ParseArgs(f.(concurrent := Some(0)), multipleExperiments) == ParseArgs(f.(concurrent := None), multipleExperiments)
    ensures ParseArgs(f.(ip := Some("")), multipleExperiments) == ParseArgs(f.(ip := None), multipleExperiments)
  {
  }
}
