/**
 * The prize counter of buggy_server.py: the module-level state
 * `num_prizes` and `race_windows`, the race-window log file, and the two
 * handlers `/reset` and `/prize`, under sequential execution.
 *
 * The transitions are first given as functions on a `ServerState` value;
 * the class `PrizeServer` then updates its fields in place and is proved
 * to follow them. Wall-clock readings (the receive time and the measured
 * race window in milliseconds) are parameters.
 */
module BuggyServer {

  /** Prizes available after every reset. */
  const TOTAL_PRIZES: int := 1

  const RESET_REJECTED: string := "Secret key not found in request headers."
  const RESET_DONE: string := "Prizes have been reset.\n"

  /** `num_prizes`, `race_windows`, and the lines of the race-window log file. */
  datatype ServerState = ServerState(numPrizes: int, raceWindows: seq<real>, raceWindowLog: seq<real>)

  /**
   * The `/prize` response: 200 with the prizes left after the claim, or
   * 400. Both carry the `end-time` header, the time the request was received.
   */
  datatype PrizeReply = Granted(left: int, endTime: real) | Denied(endTime: real)
  {
    function Status(): int {
      if Granted? then 200 else 400
    }
  }

  /** The state when the server starts: a full counter, no samples, an empty log. */
  function Init(): ServerState {
    ServerState(TOTAL_PRIZES, [], [])
  }

  /** The reply of `/reset`. */
  function ResetMessage(hasSecretKey: bool): string {
    if hasSecretKey then RESET_DONE else RESET_REJECTED
  }

  /**
   * `/reset`: without the `secret-key` header nothing changes; with it the
   * counter is refilled and the samples move, in order, to the log.
   */
  function ResetState(s: ServerState, hasSecretKey: bool): (t: ServerState)
    ensures !hasSecretKey ==> t == s
    ensures hasSecretKey ==>
      t.numPrizes == TOTAL_PRIZES && t.raceWindows == [] &&
      |t.raceWindowLog| == |s.raceWindowLog| + |s.raceWindows| &&
      t.raceWindowLog[..|s.raceWindowLog|] == s.raceWindowLog &&
      t.raceWindowLog[|s.raceWindowLog|..] == s.raceWindows
  {
    if hasSecretKey then ServerState(TOTAL_PRIZES, [], s.raceWindowLog + s.raceWindows) else s
  }

  /** The time-of-check of `/prize`: is a prize left? */
  predicate ClaimCheck(s: ServerState) {
    s.numPrizes > 0
  }

  /**
   * The rest of `/prize`, given the outcome of its check: a request that
   * passed records its race window, decrements the counter and gets 200,
   * whatever the counter holds by now; one that failed gets 400.
   */
  function ClaimUse(s: ServerState, passed: bool, rcvTime: real, window: real): (r: (ServerState, PrizeReply))
    ensures r.1.endTime == rcvTime
    ensures passed ==>
      r.1.Status() == 200 && r.0.numPrizes == s.numPrizes - 1 && r.1.left == r.0.numPrizes &&
      r.0.raceWindows == s.raceWindows + [window] && r.0.raceWindowLog == s.raceWindowLog
    ensures !passed ==> r.1.Status() == 400 && r.0 == s
  {
    if passed then
      var t := s.(raceWindows := s.raceWindows + [window], numPrizes := s.numPrizes - 1);
      (t, Granted(t.numPrizes, rcvTime))
    else
      (s, Denied(rcvTime))
  }

  /** `/prize` run with nothing in between its check and its use. */
  function Claim(s: ServerState, rcvTime: real, window: real): (r: (ServerState, PrizeReply))
    ensures r.1.endTime == rcvTime
    ensures s.numPrizes > 0 ==>
      r.1.Status() == 200 && r.0.numPrizes == s.numPrizes - 1 && r.1.left == r.0.numPrizes &&
      r.0.raceWindows == s.raceWindows + [window] && r.0.raceWindowLog == s.raceWindowLog
    ensures s.numPrizes <= 0 ==> r.1.Status() == 400 && r.0 == s
  {
    ClaimUse(s, ClaimCheck(s), rcvTime, window)
  }

  /** A request to `/prize`: its receive time and the race window it would measure. */
  datatype Request = Request(rcvTime: real, window: real)

  /** A sequence of `/prize` requests handled one after the other. */
  function Claims(s: ServerState, reqs: seq<Request>): (r: (ServerState, seq<PrizeReply>))
    ensures |r.1| == |reqs|
    decreases |reqs|
  {
    if reqs == [] then (s, [])
    else
      var (s1, r) := Claim(s, reqs[0].rcvTime, reqs[0].window);
      var (sn, rs) := Claims(s1, reqs[1..]);
      (sn, [r] + rs)
  }

  /** The race windows the requests would measure, in request order. */
  function Windows(reqs: seq<Request>): seq<real> {
    seq(|reqs|, i requires 0 <= i < |reqs| => reqs[i].window)
  }

  /** The number of 200 responses among `rs`. */
  function GrantedCount(rs: seq<PrizeReply>): nat {
    if rs == [] then 0 else (if rs[0].Granted? then 1 else 0) + GrantedCount(rs[1..])
  }

  function Min(a: int, b: int): int {
    if a <= b then a else b
  }

  /**
   * The counter invariant of sequential execution: the counter stays in
   * [0, TOTAL_PRIZES] and each prize given since the last reset has left
   * exactly one race-window sample.
   */
  ghost predicate Inv(s: ServerState) {
    0 <= s.numPrizes <= TOTAL_PRIZES && |s.raceWindows| == TOTAL_PRIZES - s.numPrizes
  }

  /** The server starts in the invariant, and both handlers keep it. */
  lemma InvPreserved(s: ServerState, hasSecretKey: bool, rcvTime: real, window: real)
    ensures Inv(Init())
    ensures Inv(s) ==> Inv(ResetState(s, hasSecretKey))
    ensures Inv(s) ==> Inv(Claim(s, rcvTime, window).0)
  {
  }

  /**
   * Sequential claims from a state with `k` prizes left: exactly
   * min(|reqs|, k) get 200, and these are the first requests; each of them
   * appends its sample, in request order; the counter drops by that many
   * and never below zero, and the log is untouched.
   */
  lemma {:induction false} SequentialClaims(s: ServerState, reqs: seq<Request>)
    requires s.numPrizes >= 0
    ensures var (t, rs) := Claims(s, reqs);
      && |rs| == |reqs|
      && GrantedCount(rs) == Min(|reqs|, s.numPrizes)
      && (forall i :: 0 <= i < |rs| ==> (rs[i].Granted? <==> i < GrantedCount(rs)))
      && t.numPrizes == s.numPrizes - GrantedCount(rs) >= 0
      && |t.raceWindows| == |s.raceWindows| + GrantedCount(rs)
      && t.raceWindows[..|s.raceWindows|] == s.raceWindows
      && t.raceWindows == s.raceWindows + Windows(reqs[..GrantedCount(rs)])
      && t.raceWindowLog == s.raceWindowLog
      && (forall i :: 0 <= i < |rs| ==> rs[i].endTime == reqs[i].rcvTime)
      decreases |reqs|
  {
    if reqs != [] {
      var (s1, r) := Claim(s, reqs[0].rcvTime, reqs[0].window);
      SequentialClaims(s1, reqs[1..]);
      var (t, rs) := Claims(s1, reqs[1..]);
      assert Claims(s, reqs) == (t, [r] + rs);
      assert t.raceWindows[..|s.raceWindows|] == s.raceWindows by {
        assert t.raceWindows[..|s1.raceWindows|] == s1.raceWindows;
        assert s1.raceWindows[..|s.raceWindows|] == s.raceWindows;
      }
      var g1 := GrantedCount(rs);
      if s.numPrizes > 0 {
        assert GrantedCount([r] + rs) == 1 + g1 by { assert ([r] + rs)[1..] == rs; }
        assert Windows(reqs[..1 + g1]) == [reqs[0].window] + Windows(reqs[1..][..g1]);
      } else {
        assert GrantedCount([r] + rs) == g1 by { assert ([r] + rs)[1..] == rs; }
        assert g1 == 0 && s1 == s;
      }
    }
  }

  /** With no 200 among them, every reply is a 400. */
  lemma {:induction false} NoneGranted(rs: seq<PrizeReply>)
    requires GrantedCount(rs) == 0
    ensures forall j :: 0 <= j < |rs| ==> rs[j].Status() == 400
  {
    if rs != [] {
      NoneGranted(rs[1..]);
      assert forall j :: 1 <= j < |rs| ==> rs[j] == rs[1..][j - 1];
    }
  }

  /**
   * After a reset, sequential claims never over-grant: at most
   * TOTAL_PRIZES get 200 (the first request; every later one gets 400),
   * the counter stays in [0, TOTAL_PRIZES], and the number of 200s is the
   * number of race-window samples.
   */
  lemma ClaimsAfterReset(s: ServerState, reqs: seq<Request>)
    ensures var (t, rs) := Claims(ResetState(s, true), reqs);
      && GrantedCount(rs) <= TOTAL_PRIZES
      && 0 <= t.numPrizes <= TOTAL_PRIZES
      && GrantedCount(rs) == |t.raceWindows|
      && (reqs != [] ==> GrantedCount(rs) == TOTAL_PRIZES && rs[0].Granted?)
      && (forall j :: 1 <= j < |rs| ==> rs[j].Status() == 400)
  {
    var s0 := ResetState(s, true);
    SequentialClaims(s0, reqs);
    if reqs != [] {
      var (s1, r) := Claim(s0, reqs[0].rcvTime, reqs[0].window);
      var (t, rest) := Claims(s1, reqs[1..]);
      assert Claims(s0, reqs).1 == [r] + rest;
      assert ([r] + rest)[1..] == rest;
      NoneGranted(rest);
    }
  }

  /**
   * The server process: `num_prizes`, `race_windows` and the race-window
   * log file, updated in place by the handlers.
   */
  class PrizeServer {
    var numPrizes: int
    var raceWindows: seq<real>
    var raceWindowLog: seq<real>

    /** The fields as a value, to relate the handlers to the functions above. */
    function State(): ServerState
      reads this
    {
      ServerState(numPrizes, raceWindows, raceWindowLog)
    }

    constructor ()
      ensures State() == Init()
    {
      numPrizes := TOTAL_PRIZES;
      raceWindows := [];
      raceWindowLog := [];
    }

    /** `/reset`; `hasSecretKey` says whether the `secret-key` header is present. */
    method Reset(hasSecretKey: bool) returns (msg: string)
      modifies this
      ensures msg == ResetMessage(hasSecretKey)
      ensures State() == ResetState(old(State()), hasSecretKey)
      ensures !hasSecretKey ==> unchanged(this)
      ensures hasSecretKey ==>
        numPrizes == TOTAL_PRIZES && raceWindows == [] &&
        raceWindowLog == old(raceWindowLog) + old(raceWindows)
    {
      if !hasSecretKey {
        return RESET_REJECTED;
      }
      numPrizes := TOTAL_PRIZES;
      var i := 0;
      while i < |raceWindows|
        invariant 0 <= i <= |raceWindows|
        invariant raceWindows == old(raceWindows) && numPrizes == TOTAL_PRIZES
        invariant raceWindowLog == old(raceWindowLog) + raceWindows[..i]
      {
        raceWindowLog := raceWindowLog + [raceWindows[i]];
        i := i + 1;
      }
      raceWindows := [];
      msg := RESET_DONE;
    }

    /** The time-of-check of `/prize`. */
    method Check() returns (passed: bool)
      ensures passed <==> numPrizes > 0
    {
      passed := numPrizes > 0;
    }

    /** The time-of-use of `/prize`, acting on the outcome of an earlier check. */
    method Use(passed: bool, rcvTime: real, window: real) returns (reply: PrizeReply)
      modifies this
      ensures (State(), reply) == ClaimUse(old(State()), passed, rcvTime, window)
      ensures reply.endTime == rcvTime
      ensures passed ==>
        reply.Status() == 200 && numPrizes == old(numPrizes) - 1 &&
        raceWindows == old(raceWindows) + [window] && raceWindowLog == old(raceWindowLog)
      ensures !passed ==> reply.Status() == 400 && unchanged(this)
    {
      if passed {
        raceWindows := raceWindows + [window];
        numPrizes := numPrizes - 1;
        reply := Granted(numPrizes, rcvTime);
      } else {
        reply := Denied(rcvTime);
      }
    }

    /**
     * `/prize`: receive time `rcvTime`; `window` is the race window in
     * milliseconds that timing the transaction log would measure.
     */
    method Prize(rcvTime: real, window: real) returns (reply: PrizeReply)
      modifies this
      ensures (State(), reply) == Claim(old(State()), rcvTime, window)
      ensures Inv(old(State())) ==> Inv(State())
    {
      var passed := Check();
      reply := Use(passed, rcvTime, window);
    }
  }
}
