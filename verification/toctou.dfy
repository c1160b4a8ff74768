/**
 * The time-of-check to time-of-use defect of `/prize` in buggy_server.py.
 * Each request runs as a thread that takes two atomic steps on the shared
 * state: its check (the `num_prizes > 0` test) and its use (recording the
 * race window, decrementing, replying). A schedule is the order in which
 * the threads' steps happen; threads are not otherwise modelled.
 */
module Toctou {
  import opened BuggyServer

  /** Where a thread is: not yet checked, checked with an outcome, or replied. */
  datatype Phase = Ready | Checked(passed: bool) | Done(reply: PrizeReply)

  /** One step of one thread. */
  datatype Event = CheckOf(t: nat) | UseOf(t: nat)

  /** The shared server state and the phase of each thread. */
  datatype World = World(server: ServerState, phases: seq<Phase>)

  /**
   * Thread `e.t` takes step `e` with request `reqs[e.t]`; a step that is
   * not enabled (unknown thread, wrong phase) leaves the world as it is.
   */
  function Step(w: World, reqs: seq<Request>, e: Event): (v: World)
    requires |reqs| == |w.phases|
    ensures |v.phases| == |w.phases|
    // Only the stepping thread's phase can change.
    ensures forall j :: 0 <= j < |w.phases| && j != e.t ==> v.phases[j] == w.phases[j]
    // A check reads the counter and changes no shared state.
    ensures e.CheckOf? && e.t < |w.phases| && w.phases[e.t] == Ready ==>
      v.server == w.server && v.phases[e.t] == Checked(w.server.numPrizes > 0)
    // A use acts on its earlier check, whatever the counter holds now.
    ensures e.UseOf? && e.t < |w.phases| && w.phases[e.t].Checked? ==>
      v.phases[e.t].Done? && v.phases[e.t].reply.endTime == reqs[e.t].rcvTime &&
      (w.phases[e.t].passed ==>
        v.phases[e.t].reply.Status() == 200 && v.server.numPrizes == w.server.numPrizes - 1 &&
        v.server.raceWindows == w.server.raceWindows + [reqs[e.t].window] &&
        v.server.raceWindowLog == w.server.raceWindowLog &&
        v.phases[e.t].reply.left == v.server.numPrizes) &&
      (!w.phases[e.t].passed ==> v.phases[e.t].reply.Status() == 400 && v.server == w.server)
    // A step that is not enabled does nothing.
    ensures !(e.t < |w.phases| && (if e.CheckOf? then w.phases[e.t] == Ready else w.phases[e.t].Checked?)) ==>
      v == w
  {
    match e
    case CheckOf(t) =>
      if t < |w.phases| && w.phases[t] == Ready
      then World(w.server, w.phases[t := Checked(ClaimCheck(w.server))])
      else w
    case UseOf(t) =>
      if t < |w.phases| && w.phases[t].Checked?
      then
        var (s, r) := ClaimUse(w.server, w.phases[t].passed, reqs[t].rcvTime, reqs[t].window);
        World(s, w.phases[t := Done(r)])
      else w
  }

  /** The world after the steps of `sched`, in order. */
  function Run(w: World, reqs: seq<Request>, sched: seq<Event>): (v: World)
    requires |reqs| == |w.phases|
    ensures |v.phases| == |w.phases|
    decreases |sched|
  {
    if sched == [] then w else Run(Step(w, reqs, sched[0]), reqs, sched[1..])
  }

  /** `n` threads, none started, over server state `s`. */
  function Start(s: ServerState, n: nat): World {
    World(s, seq(n, _ => Ready))
  }

  /** Checks of threads lo..hi-1, in order. */
  function Checks(lo: nat, hi: nat): seq<Event>
    decreases hi - lo
  {
    if lo >= hi then [] else [CheckOf(lo)] + Checks(lo + 1, hi)
  }

  /** Uses of threads lo..hi-1, in order. */
  function Uses(lo: nat, hi: nat): seq<Event>
    decreases hi - lo
  {
    if lo >= hi then [] else [UseOf(lo)] + Uses(lo + 1, hi)
  }

  /** Threads lo..hi-1 one after the other, each check followed at once by its use. */
  function Serial(lo: nat, hi: nat): seq<Event>
    decreases hi - lo
  {
    if lo >= hi then [] else [CheckOf(lo), UseOf(lo)] + Serial(lo + 1, hi)
  }

  lemma {:induction false} RunAppend(w: World, reqs: seq<Request>, a: seq<Event>, b: seq<Event>)
    requires |reqs| == |w.phases|
    ensures Run(w, reqs, a + b) == Run(Run(w, reqs, a), reqs, b)
    decreases |a|
  {
    if a != [] {
      assert (a + b)[0] == a[0] && (a + b)[1..] == a[1..] + b;
      RunAppend(Step(w, reqs, a[0]), reqs, a[1..], b);
    } else {
      assert a + b == b;
    }
  }

  /**
   * Running threads lo..hi-1 through their checks while the counter is
   * `k`: every one of them passes when `k > 0`, the state is untouched,
   * and the other threads keep their phases.
   */
  lemma {:induction false} ChecksAllSee(w: World, reqs: seq<Request>, lo: nat, hi: nat)
    requires |reqs| == |w.phases| && hi <= |w.phases|
    requires forall j :: lo <= j < hi ==> w.phases[j] == Ready
    ensures var v := Run(w, reqs, Checks(lo, hi));
      && v.server == w.server
      && (forall j :: lo <= j < hi ==> v.phases[j] == Checked(ClaimCheck(w.server)))
      && (forall j :: 0 <= j < |w.phases| && !(lo <= j < hi) ==> v.phases[j] == w.phases[j])
    decreases hi - lo
  {
    if lo < hi {
      var w1 := Step(w, reqs, CheckOf(lo));
      assert Checks(lo, hi)[0] == CheckOf(lo) && Checks(lo, hi)[1..] == Checks(lo + 1, hi);
      ChecksAllSee(w1, reqs, lo + 1, hi);
    }
  }

  /**
   * Running the uses of threads lo..hi-1 that all passed their check:
   * each one decrements the counter and gets 200, whatever the counter
   * holds, and each appends one race-window sample.
   */
  lemma {:induction false} UsesAllGrant(w: World, reqs: seq<Request>, lo: nat, hi: nat)
    requires |reqs| == |w.phases| && lo <= hi <= |w.phases|
    requires forall j :: lo <= j < hi ==> w.phases[j] == Checked(true)
    ensures var v := Run(w, reqs, Uses(lo, hi));
      && v.server.numPrizes == w.server.numPrizes - (hi - lo)
      && v.server.raceWindows == w.server.raceWindows + Windows(reqs[lo..hi])
      && v.server.raceWindowLog == w.server.raceWindowLog
      && (forall j :: lo <= j < hi ==> v.phases[j].Done? && v.phases[j].reply.Status() == 200)
      && (forall j :: 0 <= j < |w.phases| && !(lo <= j < hi) ==> v.phases[j] == w.phases[j])
    decreases hi - lo
  {
    if lo < hi {
      var w1 := Step(w, reqs, UseOf(lo));
      assert Uses(lo, hi)[0] == UseOf(lo) && Uses(lo, hi)[1..] == Uses(lo + 1, hi);
      UsesAllGrant(w1, reqs, lo + 1, hi);
    }
  }

  /**
   * The over-grant: after a reset, if all `n` requests pass the check
   * before any of them uses it, all `n` get 200 and the counter ends at
   * TOTAL_PRIZES - n, below zero as soon as n > TOTAL_PRIZES.
   */
  lemma AllCheckBeforeUse(s: ServerState, reqs: seq<Request>)
    ensures var v := Run(Start(ResetState(s, true), |reqs|), reqs, Checks(0, |reqs|) + Uses(0, |reqs|));
      && v.server.numPrizes == TOTAL_PRIZES - |reqs|
      && v.server.raceWindows == Windows(reqs)
      && (forall j :: 0 <= j < |reqs| ==> v.phases[j].Done? && v.phases[j].reply.Status() == 200)
  {
    var n := |reqs|;
    var w := Start(ResetState(s, true), n);
    RunAppend(w, reqs, Checks(0, n), Uses(0, n));
    ChecksAllSee(w, reqs, 0, n);
    UsesAllGrant(Run(w, reqs, Checks(0, n)), reqs, 0, n);
  }

  /**
   * The smallest instance: two requests after a reset, both checked before
   * either uses; both get 200 and `num_prizes` ends at -1.
   */
  lemma TwoClaimsOverGrant(s: ServerState, r0: Request, r1: Request)
    ensures var v := Run(Start(ResetState(s, true), 2), [r0, r1], [CheckOf(0), CheckOf(1), UseOf(0), UseOf(1)]);
      && v.phases[0].Done? && v.phases[0].reply.Status() == 200
      && v.phases[1].Done? && v.phases[1].reply.Status() == 200
      && v.server.numPrizes == -1
  {
    assert [CheckOf(0), CheckOf(1), UseOf(0), UseOf(1)] == Checks(0, 2) + Uses(0, 2);
    AllCheckBeforeUse(s, [r0, r1]);
  }

  /**
   * Without interleaving there is no defect: the serial schedule yields
   * exactly the state and replies of handling the requests one after the
   * other.
   */
  lemma {:induction false} SerialIsSequential(w: World, reqs: seq<Request>, lo: nat)
    requires |reqs| == |w.phases| && lo <= |w.phases|
    requires forall j :: lo <= j < |w.phases| ==> w.phases[j] == Ready
    ensures var v := Run(w, reqs, Serial(lo, |reqs|));
      var (t, rs) := Claims(w.server, reqs[lo..]);
      && v.server == t
      && (forall j :: lo <= j < |reqs| ==> v.phases[j] == Done(rs[j - lo]))
      && (forall j :: 0 <= j < lo ==> v.phases[j] == w.phases[j])
    decreases |reqs| - lo
  {
    var n := |reqs|;
    if lo < n {
      var w1 := Step(w, reqs, CheckOf(lo));
      var w2 := Step(w1, reqs, UseOf(lo));
      assert Serial(lo, n)[0] == CheckOf(lo) && Serial(lo, n)[1..][0] == UseOf(lo);
      assert Serial(lo, n)[1..][1..] == Serial(lo + 1, n);
      SerialIsSequential(w2, reqs, lo + 1);
      var (s1, r) := Claim(w.server, reqs[lo].rcvTime, reqs[lo].window);
      assert w2.server == s1 && w2.phases[lo] == Done(r);
      assert reqs[lo..][0] == reqs[lo] && reqs[lo..][1..] == reqs[lo + 1..];
      var (t, rs) := Claims(s1, reqs[lo + 1..]);
      assert Claims(w.server, reqs[lo..]) == (t, [r] + rs);
    } else {
      assert reqs[lo..] == [];
    }
  }

  /**
   * So after a reset a serial schedule grants at most TOTAL_PRIZES prizes:
   * every thread finishes, the first gets 200 and every later one 400.
   */
  lemma SerialAfterResetNoOverGrant(s: ServerState, reqs: seq<Request>)
    ensures var v := Run(Start(ResetState(s, true), |reqs|), reqs, Serial(0, |reqs|));
      && 0 <= v.server.numPrizes <= TOTAL_PRIZES
      && (forall j :: 0 <= j < |reqs| ==> v.phases[j].Done?)
      && (|reqs| > 0 ==> v.phases[0].reply.Status() == 200)
      && (forall j :: 1 <= j < |reqs| ==> v.phases[j].reply.Status() == 400)
  {
    var w := Start(ResetState(s, true), |reqs|);
    SerialIsSequential(w, reqs, 0);
    assert reqs[0..] == reqs;
    ClaimsAfterReset(s, reqs);
  }
}
