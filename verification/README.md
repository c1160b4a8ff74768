# Prize-counter race: a Dafny model

This project models the sequential core of a small experiment about a
time-of-check to time-of-use (TOCTOU) race. A Flask server hands out a
limited prize. Its `/prize` handler checks `num_prizes > 0`, logs a
transaction to disk, and only then decrements the counter. An experiment
driver fires bursts of concurrent claims and counts how often more prizes
are granted than exist. The model covers three source files, in four
Dafny files:

- `arg_parser.dfy` (module `ArgParser`): the decision logic of `parse_args`.
  It maps already-parsed flags to the latency mode and its parameters in
  seconds, the number of experiments, verbosity, concurrency and server
  address. Selecting more than one latency mode is an error. Python
  truthiness is written out, so a flag given as `0` counts as absent.
- `buggy_server.dfy` (module `BuggyServer`): the server state
  (`num_prizes`, `race_windows`, the race-window log) and the handlers
  `/reset` and `/prize`. They are given as transition functions on a state
  value, and as a class `PrizeServer` whose methods update its fields in
  place and are proved to follow those functions. Sequential execution
  keeps the counter in `[0, TOTAL_PRIZES]` and never over-grants.
- `toctou.dfy` (module `Toctou`): `/prize` split into its check step and
  its use step. A schedule interleaves these steps across requests. If
  every request checks before any of them uses, all of them get 200 and
  the counter ends at `1 - n`; the two-request case ends at `-1`. A serial
  schedule gives exactly the sequential replies.
- `experiment.dfy` (module `Experiment`): the trial loop of `main` and the
  summary numbers. A trial counts as unsuccessful exactly when its 400 count
  is `N - M`. The model also derives the success count and ratio, the 200
  and 400 totals, the over-grant total and its average per success, the
  flattened jitter list, and the trace of reset/attack calls.

`wrappers.dfy` holds `Option` and `Result`.

Edge cases of the code that the model keeps:

- `main` raises `ZeroDivisionError` at experiment.py:68 when
  `num_experiments == 0`, and at experiment.py:74 when
  `successful_exploits == 0`. `Summarize` returns
  `Failure(SuccessRateByZero)` or `Failure(AverageByZero)` in these cases.
- `num_experiments` is not checked. When it is negative, `range` runs no
  trial and the summary arithmetic still goes ahead. The model keeps this
  behaviour.
- `-jn` is tested for truthiness as a string, before it is evaluated. Any
  pair it evaluates to, even `(0, 0)`, selects the normal-jitter mode.

## Model

| member | source | states |
|---|---|---|
| `ArgParser.ParseArgs` | arg_parser.py:38-72 | Error exactly when two latency flags are truthy. No truthy flag gives NoLatency with no parameters. A flag alone selects its mode, with each value divided by 1000. `verbose` is `not silent`. Concurrency defaults to 2 when the flag is absent or 0. The server address is None when absent or empty. `num_experiments` is 0 unless `multiple_experiments`, and defaults to 100 |
| `ArgParser.ZeroFlagIsAbsent` | arg_parser.py:40-60 | A delay, jitter or concurrency of 0, or an empty IP, gives the same result as leaving that flag out |
| `BuggyServer.ResetState` | buggy_server.py:35-49 | Without `secret-key` the state is unchanged. With it, the counter is TOTAL_PRIZES, the samples are empty, and the old samples are appended to the log in order |
| `BuggyServer.ClaimUse` | buggy_server.py:74-97 | The time-of-use, given the outcome of an earlier check. After a passed check it replies 200, takes the counter down by exactly 1 whatever it holds now, appends exactly one sample and leaves the log alone. After a failed check it replies 400 and changes nothing. Both replies carry the receive time as `end-time` |
| `BuggyServer.Claim` | buggy_server.py:68-97 | A check that passes gives 200, takes the counter down by exactly 1, appends exactly one sample and leaves the log alone. A check that fails gives 400 and changes nothing. Both replies carry the receive time as `end-time` |
| `BuggyServer.Claims` | buggy_server.py:68-97 | Its contract states only that there is one reply per request. What the replies and the final state are is stated by `SequentialClaims` and `ClaimsAfterReset` |
| `BuggyServer.InvPreserved` | buggy_server.py:25-27 | The initial state meets the invariant (counter in [0, TOTAL_PRIZES], sample count = TOTAL_PRIZES − counter), and reset and claim both preserve it |
| `BuggyServer.SequentialClaims` | buggy_server.py:73-89 | Sequential claims from a counter of k ≥ 0 grant exactly min(\|reqs\|, k). Exactly the first min(\|reqs\|, k) replies are 200. The counter falls by that many and stays ≥ 0. The samples become the old samples followed by the windows of the first min(\|reqs\|, k) requests, in request order. The log is unchanged, and each reply's `end-time` is its request's receive time |
| `BuggyServer.ClaimsAfterReset` | buggy_server.py:43-48 | After a reset, sequential claims grant at most TOTAL_PRIZES prizes: the first claim gets 200 and every later one 400. The counter stays in [0, TOTAL_PRIZES], and the number of 200s equals the number of samples |
| `BuggyServer.PrizeServer.constructor` | buggy_server.py:25-27 | The server starts with TOTAL_PRIZES prizes, no samples and an empty log |
| `BuggyServer.PrizeServer.Reset` | buggy_server.py:35-49 | Follows `ResetState`; the loop writes the samples to the log one at a time, in order, and the reply is the acknowledgement or the rejection |
| `BuggyServer.PrizeServer.Check` | buggy_server.py:73 | The time-of-check result is true exactly when `num_prizes > 0` |
| `BuggyServer.PrizeServer.Use` | buggy_server.py:74-97 | Given a passed check: appends the sample, decrements and replies 200, whatever the counter holds now. Given a failed check: 400 and nothing changes |
| `BuggyServer.PrizeServer.Prize` | buggy_server.py:68-97 | Check then use follows `Claim` exactly and preserves the sequential invariant |
| `Toctou.ChecksAllSee` | buggy_server.py:73 | Checks that run back to back all read the same counter and change no shared state |
| `Toctou.Step` | buggy_server.py:73-97 | One step of one request. Only that request's phase changes. A check records `num_prizes > 0` and leaves the shared state alone. A use acts on its earlier check: if it passed, reply 200 with the decremented counter as `left`, decrement and append the sample and leave the log alone, whatever the counter holds now; if not, reply 400 and change nothing. Either reply carries the receive time. A step that is not enabled does nothing |
| `Toctou.UsesAllGrant` | buggy_server.py:74-89 | Uses of passed checks each decrement and reply 200, even once the counter is at or below 0. Their windows are appended in thread order and the log is unchanged |
| `Toctou.AllCheckBeforeUse` | buggy_server.py:63-81 | After a reset, if all n requests check before any uses, all n get 200, the samples are exactly the n request windows in order, and the counter ends at TOTAL_PRIZES − n |
| `Toctou.TwoClaimsOverGrant` | buggy_server.py:63-81 | Two requests after a reset, checked before either uses: both get 200 and `num_prizes` ends at −1 |
| `Toctou.SerialIsSequential` | buggy_server.py:68-97 | Running each request's check and use back to back gives exactly the state and replies of sequential handling |
| `Toctou.SerialAfterResetNoOverGrant` | buggy_server.py:43-48 | With a serial schedule after a reset, every request finishes, the first gets 200, every later one gets 400, and the counter stays in [0, TOTAL_PRIZES] |
| `Experiment.CountUnsuccessful` | experiment.py:55-58 | The unsuccessful count is at most the number of trials, and equals it exactly when every trial's 400 count is N − M |
| `Experiment.UnsuccessfulCountIsExact` | experiment.py:55-58 | The unsuccessful count is the size of the set of trial indices whose 400 count is N − M. No other trial is counted |
| `Experiment.SumGranted` | experiment.py:70 | The 200 total is never negative and is at least each trial's own 200 count |
| `Experiment.SumDenied` | experiment.py:71 | The 400 total is never negative and is at least each trial's own 400 count |
| `Experiment.Flatten` | experiment.py:72 | The flattened jitter list is as long as all the trials' jitter lists together |
| `Experiment.FlattenAppend` | experiment.py:72 | Flattening distributes over concatenation of result lists |
| `Experiment.FlattenAt` | experiment.py:72 | Jitter value j of trial k sits at the total jitter count of trials 0..k−1, plus j, so the trials' values stay in order |
| `Experiment.CallTraceAt` | experiment.py:48-52 | The call trace alternates reset and attack: position 2i is reset(i+1) and position 2i+1 is attack(i+1) |
| `Experiment.Ratio` | experiment.py:68 | Models Python's `/` on two integers by the exact rational quotient: the quotient times the divisor gives back the dividend, a ratio 0 ≤ a ≤ b lies in [0, 1], and a / a is 1 |
| `Experiment.SummaryOf` | experiment.py:67-74 | The summary numbers when neither division raises: the unsuccessful count, successes = n − unsuccessful, ratio = successes / n, the 200 and 400 totals, the flattened jitter, over-grants = the 200 total − n·M, and average = over-grants / successes |
| `Experiment.Summarize` | experiment.py:67-74 | With 0 experiments the success ratio divides by zero; otherwise the only possible failure is the average dividing by zero. With n > 0 there is a summary exactly when some trial's 400 count differs from N − M. In a summary: the unsuccessful count is `CountUnsuccessful` with N − M; successes are n minus that, in (0, n]; the ratio is in [0, 1] and is successes / n (with n < 0 no trial runs and the summary always exists, with ratio 1); the 200 and 400 totals are the sums over all results; the jitter list is `Flatten` of the results; over-grants are the 200 total minus n·M; and the average is over-grants / successes |
| `Experiment.ExactGrantsNoOverGrant` | experiment.py:70-74 | If every trial grants exactly M, both the over-grant total and its average are 0 |
| `Experiment.OverGrantByOneAverage` | experiment.py:55-74 | If every trial grants M+1 and denies N−M−1, every trial is a success: the rate is 1, the over-grant total is n and the average is 1 |
| `Experiment.RunTrials` | experiment.py:48-58 | The loop appends one result per trial, in order. Its call trace is reset(i), attack(i) for i = 1..n. The unsuccessful count is `CountUnsuccessful` over the results |
| `Experiment.RunExperiments` | experiment.py:43-74 | `main`'s trace and outcome (the summary, or which division raises) are those of `CallTrace` and `Summarize` |

## Left out

- `compute_probability_of_success` and the `USE_SCIPY` capability check (experiment.py:13-17, 29-38, 87-94) are not modelled. They rely on floating-point `sqrt` and scipy's Normal CDF.
- Experiment.Ratio: Python's `/` on integers returns a rounded float, and `round(..., 2)` (experiment.py:68, 74) rounds it again. Neither rounding is modelled; the model keeps the exact rational quotient.
- `launch_attack`, `reset_counter`, `compute_jitter_stats`, `LEGIT_NUM_REQUESTS` and `CONCURRENT_REQUESTS` live in exploit.py, which is not part of this model. Per-trial results are an input sequence, the two constants are parameters, and each call appears only as an entry in the trace. The jitter mean and standard deviation are not computed.
- Real threads, Flask's threaded server and the `mutex` that `/reset` holds are not modelled. Reset and each check or use are single atomic steps. The only concurrency modelled is the order of check and use steps across requests.
- `time.time()` and the elapsed-millisecond computation (buggy_server.py:71-78) are not modelled. The receive time and the race-window sample are opaque real inputs.
- `log_transaction` and processing_delay.py are not modelled: the file write and the CPU loop only take time. In the model they are the gap between the check and the use.
- Flask routing, the `experiment-id` and `id` headers (used only in printed or message text), and response text are not modelled. A 200 reply keeps only the count left.
- `argparse` registration, the `float`/`int` conversions, and `ast.literal_eval` of `-jn` are not modelled. Flags are given as already-parsed optional values. A `-jn` string that does not evaluate to a pair raises in the source, and that case is not modelled.
- Not modelled: printing, log and jitter file writing, summary string formatting, `datetime`, the `__main__` blocks, and writes to `exploit` module globals.
- How a `LatencyType` member is formatted as text (for example `LatencyType.NONE` in the summary at experiment.py:64 and the log file name at experiment.py:117) is not modelled, and neither are the members' integer values, which nothing in the source reads.
