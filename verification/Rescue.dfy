/** The rescue loop's pacing (src/logic/rescue_policy.cpp and runRescueFetch in
    src/logic/cycle_runner.cpp) under an arbitrary clock: what it does, in order. */
module Rescue {

  datatype RescueConfig = RescueConfig(windowStart: int, windowEnd: int, retryPause: int, maxAttempts: int)

  const DEFAULT_RESCUE := RescueConfig(20, 40, 5, 3)

  datatype RescueStep = Wait(seconds: int) | Retry | Stop

  function NextRescueStep(now: int, anchoredAt: int, cfg: RescueConfig): RescueStep {
    var elapsed := now - anchoredAt;
    if elapsed < 0 || elapsed > cfg.windowEnd then Stop
    else if elapsed < cfg.windowStart then Wait(cfg.windowStart - elapsed)
    else Retry
  }

  // What the loop does: wait for the window, fetch (at the clock reading that let it),
  // rest after an incomplete fetch, push after a complete one.
  datatype RescueAction =
    | Waited(at: int, seconds: int)
    | Fetched(at: int, complete: bool)
    | Rested(seconds: int)
    | PushedBoard

  // The loop from the given counters on. The clock is read once per iteration; `complete`
  // says how each attempt turns out.
  function RescueTrace(cfg: RescueConfig, anchor: int, clock: nat -> int, complete: nat -> bool, attempts: nat, waits: nat)
    : seq<RescueAction>
    decreases 2 * cfg.maxAttempts - attempts - waits
  {
    if attempts >= cfg.maxAttempts || waits > cfg.maxAttempts then []
    else
      var now := clock(attempts + waits);
      match NextRescueStep(now, anchor, cfg)
      case Stop => []
      case Wait(s) => [Waited(now, s)] + RescueTrace(cfg, anchor, clock, complete, attempts, waits + 1)
      case Retry =>
        if complete(attempts) then [Fetched(now, true), PushedBoard]
        else [Fetched(now, false), Rested(cfg.retryPause)] + RescueTrace(cfg, anchor, clock, complete, attempts + 1, waits)
  }

  function Fetches(t: seq<RescueAction>): nat {
    if t == [] then 0 else Fetches(t[1..]) + if t[0].Fetched? then 1 else 0
  }

  function Waits(t: seq<RescueAction>): nat {
    if t == [] then 0 else Waits(t[1..]) + if t[0].Waited? then 1 else 0
  }

  predicate Rescued(t: seq<RescueAction>) {
    t != [] && t[|t| - 1] == PushedBoard
  }

  // Fetches only inside the window; waits only before it, and exactly up to its start.
  predicate OnSchedule(a: RescueAction, anchor: int, cfg: RescueConfig) {
    match a
    case Waited(at, s) => 0 <= at - anchor < cfg.windowStart && s > 0 && at + s - anchor == cfg.windowStart
    case Fetched(at, _) => cfg.windowStart <= at - anchor <= cfg.windowEnd
    case Rested(s) => s == cfg.retryPause
    case PushedBoard => true
  }

  // Action i may be followed by what comes next: a push ends the loop and comes straight
  // after a complete fetch, which nothing else follows.
  predicate InOrder(t: seq<RescueAction>, i: nat)
    requires i < |t|
  {
    && (t[i] == PushedBoard ==> i == |t| - 1 && i > 0 && t[i - 1].Fetched? && t[i - 1].complete)
    && (t[i].Fetched? && t[i].complete ==> i == |t| - 2 && t[i + 1] == PushedBoard)
    && (t[i].Fetched? && !t[i].complete ==> i + 1 < |t| && t[i + 1].Rested?)
  }

  ghost predicate WellPaced(t: seq<RescueAction>, anchor: int, cfg: RescueConfig) {
    forall i: nat | i < |t| :: OnSchedule(t[i], anchor, cfg) && InOrder(t, i)
  }

  // One iteration that goes on: a wait, or an incomplete fetch and its rest.
  predicate GoesOn(head: seq<RescueAction>) {
    || (|head| == 1 && head[0].Waited?)
    || (|head| == 2 && head[0].Fetched? && !head[0].complete && head[1].Rested?)
  }

  lemma HeadThenRest(head: seq<RescueAction>, t: seq<RescueAction>, log: seq<RescueAction>)
    requires GoesOn(head)
    ensures log + head + t == log + (head + t)
    ensures Fetches(head + t) == Fetches(t) + |head| - 1 && Waits(head + t) == Waits(t) + 2 - |head|
    ensures Rescued(head + t) <==> Rescued(t)
  {
    assert (head + t)[1..] == head[1..] + t;
    if |head| == 2 {
      assert (head[1..] + t)[1..] == t;
    }
  }

  lemma PacedStep(head: seq<RescueAction>, t: seq<RescueAction>, anchor: int, cfg: RescueConfig)
    requires WellPaced(t, anchor, cfg) && GoesOn(head)
    requires forall i | 0 <= i < |head| :: OnSchedule(head[i], anchor, cfg)
    requires t != [] ==> t[0] != PushedBoard
    ensures WellPaced(head + t, anchor, cfg)
  {
    var all := head + t;
    forall i: nat | i < |all|
      ensures OnSchedule(all[i], anchor, cfg) && InOrder(all, i)
    {
      if i >= |head| {
        var j := i - |head|;
        assert OnSchedule(t[j], anchor, cfg) && InOrder(t, j) && all[i] == t[j];
        assert i > |head| ==> all[i - 1] == t[j - 1];
        assert i + 1 < |all| ==> all[i + 1] == t[j + 1];
      }
    }
  }

  lemma Continue(head: seq<RescueAction>, t: seq<RescueAction>, anchor: int, cfg: RescueConfig)
    requires WellPaced(t, anchor, cfg) && GoesOn(head)
    requires forall i | 0 <= i < |head| :: OnSchedule(head[i], anchor, cfg)
    requires t != [] ==> t[0] != PushedBoard
    ensures WellPaced(head + t, anchor, cfg)
    ensures Fetches(head + t) == Fetches(t) + |head| - 1 && Waits(head + t) == Waits(t) + 2 - |head|
  {
    hide WellPaced;
    PacedStep(head, t, anchor, cfg);
    HeadThenRest(head, t, []);
  }

  lemma NoActions()
    ensures Fetches([]) == 0 && !Rescued([])
  {
  }

  lemma LastActions(now: int)
    ensures var t := [Fetched(now, true), PushedBoard];
      Fetches(t) == 1 && Waits(t) == 0 && Rescued(t) && InOrder(t, 0) && InOrder(t, 1)
  {
    var t := [Fetched(now, true), PushedBoard];
    var last := [PushedBoard];
    assert t[1..] == last && last[1..] == [];
    assert Fetches(last) == 0 && Waits(last) == 0;
  }

  // For every clock, running, stuck or going backwards, and every outcome of the fetches.
  lemma {:induction false} RescueIsBounded(cfg: RescueConfig, anchor: int, clock: nat -> int, complete: nat -> bool,
                                           attempts: nat, waits: nat)
    ensures var t := RescueTrace(cfg, anchor, clock, complete, attempts, waits);
      && WellPaced(t, anchor, cfg)
      && (attempts <= cfg.maxAttempts ==> Fetches(t) <= cfg.maxAttempts - attempts)
      && (waits <= cfg.maxAttempts + 1 ==> Waits(t) <= cfg.maxAttempts + 1 - waits)
      && (t != [] ==> t[0] != PushedBoard)
    decreases 2 * cfg.maxAttempts - attempts - waits
  {
    if attempts < cfg.maxAttempts && waits <= cfg.maxAttempts {
      var now := clock(attempts + waits);
      match NextRescueStep(now, anchor, cfg) {
        case Stop =>
        case Wait(s) =>
          RescueIsBounded(cfg, anchor, clock, complete, attempts, waits + 1);
          Continue([Waited(now, s)], RescueTrace(cfg, anchor, clock, complete, attempts, waits + 1), anchor, cfg);
        case Retry =>
          if complete(attempts) {
            LastActions(now);
          } else {
            RescueIsBounded(cfg, anchor, clock, complete, attempts + 1, waits);
            Continue([Fetched(now, false), Rested(cfg.retryPause)],
                     RescueTrace(cfg, anchor, clock, complete, attempts + 1, waits), anchor, cfg);
          }
      }
    }
  }

  // The loop ends with the first complete fetch and with no other.
  lemma {:induction false} FirstCompleteWins(cfg: RescueConfig, anchor: int, clock: nat -> int, complete: nat -> bool,
                                             attempts: nat, waits: nat)
    ensures var t := RescueTrace(cfg, anchor, clock, complete, attempts, waits);
      var n := attempts + Fetches(t);
      && (Rescued(t) ==> n > attempts && complete(n - 1) && forall j | attempts <= j < n - 1 :: !complete(j))
      && (!Rescued(t) ==> forall j | attempts <= j < n :: !complete(j))
    decreases 2 * cfg.maxAttempts - attempts - waits
  {
    hide Fetches, Rescued;
    NoActions();
    if attempts < cfg.maxAttempts && waits <= cfg.maxAttempts {
      var now := clock(attempts + waits);
      match NextRescueStep(now, anchor, cfg) {
        case Stop =>
        case Wait(s) =>
          FirstCompleteWins(cfg, anchor, clock, complete, attempts, waits + 1);
          HeadThenRest([Waited(now, s)], RescueTrace(cfg, anchor, clock, complete, attempts, waits + 1), []);
        case Retry =>
          if complete(attempts) {
            LastActions(now);
          } else {
            FirstCompleteWins(cfg, anchor, clock, complete, attempts + 1, waits);
            HeadThenRest([Fetched(now, false), Rested(cfg.retryPause)],
                         RescueTrace(cfg, anchor, clock, complete, attempts + 1, waits), []);
          }
      }
    }
  }

  // On a clock stuck before the window the loop gives up after maxAttempts + 1 waits.
  lemma {:induction false} StuckClock(cfg: RescueConfig, anchor: int, now: int, complete: nat -> bool, waits: nat)
    requires 0 <= now - anchor < cfg.windowStart && now - anchor <= cfg.windowEnd
    requires 0 < cfg.maxAttempts && waits <= cfg.maxAttempts + 1
    ensures var t := RescueTrace(cfg, anchor, _ => now, complete, 0, waits);
      Fetches(t) == 0 && Waits(t) == cfg.maxAttempts + 1 - waits && !Rescued(t)
    decreases cfg.maxAttempts + 1 - waits
  {
    if waits <= cfg.maxAttempts {
      var wait := [Waited(now, cfg.windowStart - (now - anchor))];
      var rest := RescueTrace(cfg, anchor, _ => now, complete, 0, waits + 1);
      StuckClock(cfg, anchor, now, complete, waits + 1);
      assert RescueTrace(cfg, anchor, _ => now, complete, 0, waits) == wait + rest;
      assert (wait + rest)[1..] == rest;
    }
  }

  // Once the window is open on a clock that never goes back, nothing waits again.
  lemma {:induction false} NoWaitInsideWindow(cfg: RescueConfig, anchor: int, clock: nat -> int, complete: nat -> bool,
                                              attempts: nat, waits: nat)
    requires forall i: nat, j: nat | i <= j :: clock(i) <= clock(j)
    requires clock(attempts + waits) - anchor >= cfg.windowStart
    ensures Waits(RescueTrace(cfg, anchor, clock, complete, attempts, waits)) == 0
    decreases 2 * cfg.maxAttempts - attempts - waits
  {
    if attempts < cfg.maxAttempts && waits <= cfg.maxAttempts {
      var now := clock(attempts + waits);
      if NextRescueStep(now, anchor, cfg) == Retry {
        if complete(attempts) {
          LastActions(now);
        } else {
          assert clock(attempts + waits) <= clock(attempts + 1 + waits);
          NoWaitInsideWindow(cfg, anchor, clock, complete, attempts + 1, waits);
          var head, rest := [Fetched(now, false), Rested(cfg.retryPause)],
                            RescueTrace(cfg, anchor, clock, complete, attempts + 1, waits);
          assert (head + rest)[1..] == head[1..] + rest && (head[1..] + rest)[1..] == rest;
        }
      }
    }
  }

  // A clock that really passes the time waited for: one wait at most.
  lemma RunningClockWaitsOnce(cfg: RescueConfig, anchor: int, clock: nat -> int, complete: nat -> bool)
    requires forall i: nat, j: nat | i <= j :: clock(i) <= clock(j)
    requires clock(0) < anchor + cfg.windowStart ==> clock(1) >= anchor + cfg.windowStart
    ensures Waits(RescueTrace(cfg, anchor, clock, complete, 0, 0)) <= 1
  {
    var t := RescueTrace(cfg, anchor, clock, complete, 0, 0);
    if clock(0) - anchor >= cfg.windowStart {
      NoWaitInsideWindow(cfg, anchor, clock, complete, 0, 0);
    } else if cfg.maxAttempts > 0 && NextRescueStep(clock(0), anchor, cfg).Wait? {
      NoWaitInsideWindow(cfg, anchor, clock, complete, 0, 1);
      assert t[1..] == RescueTrace(cfg, anchor, clock, complete, 0, 1);
    }
  }

  // The first attempt to come back complete decides: the board is pushed exactly if every
  // attempt before it found the window open.
  predicate AttemptAllowed(cfg: RescueConfig, anchor: int, clock: nat -> int, k: nat, waits: nat) {
    k < cfg.maxAttempts && waits <= cfg.maxAttempts && NextRescueStep(clock(k + waits), anchor, cfg) == Retry
  }

  lemma {:induction false} RescueInsideWindow(cfg: RescueConfig, anchor: int, clock: nat -> int, complete: nat -> bool,
                                              attempts: nat, waits: nat)
    requires forall i: nat, j: nat | i <= j :: clock(i) <= clock(j)
    requires clock(attempts + waits) - anchor >= cfg.windowStart && clock(attempts + waits) >= anchor
    ensures Rescued(RescueTrace(cfg, anchor, clock, complete, attempts, waits)) <==>
      exists k: nat :: attempts <= k && AttemptAllowed(cfg, anchor, clock, k, waits) && complete(k)
    decreases 2 * cfg.maxAttempts - attempts - waits
  {
    if AttemptAllowed(cfg, anchor, clock, attempts, waits) {
      if !complete(attempts) {
        assert clock(attempts + waits) <= clock(attempts + 1 + waits);
        RescueInsideWindow(cfg, anchor, clock, complete, attempts + 1, waits);
      }
    } else {
      forall k: nat | attempts <= k
        ensures !AttemptAllowed(cfg, anchor, clock, k, waits)
      {
        assert clock(attempts + waits) <= clock(k + waits);
      }
    }
  }

  // From the start, on a clock that does not go back and passes the time waited for: the
  // board is pushed exactly if some allowed attempt finds the window open and is complete.
  // The loop normally begins at the anchor, before the window, and so waits once.
  lemma RescueSucceedsIff(cfg: RescueConfig, anchor: int, clock: nat -> int, complete: nat -> bool)
    requires forall i: nat, j: nat | i <= j :: clock(i) <= clock(j)
    requires anchor <= clock(0) && (clock(0) < anchor + cfg.windowStart ==> clock(1) >= anchor + cfg.windowStart)
    ensures var waits := if clock(0) < anchor + cfg.windowStart then 1 else 0;
      Rescued(RescueTrace(cfg, anchor, clock, complete, 0, 0)) <==>
        exists k: nat :: AttemptAllowed(cfg, anchor, clock, k, waits) && complete(k)
  {
    if clock(0) >= anchor + cfg.windowStart {
      RescueInsideWindow(cfg, anchor, clock, complete, 0, 0);
    } else {
      assert clock(0) <= clock(1);
      RescueInsideWindow(cfg, anchor, clock, complete, 0, 1);
      if cfg.maxAttempts > 0 && NextRescueStep(clock(0), anchor, cfg).Wait? {
        var head := [Waited(clock(0), NextRescueStep(clock(0), anchor, cfg).seconds)];
        HeadThenRest(head, RescueTrace(cfg, anchor, clock, complete, 0, 1), []);
      } else {
        forall k: nat
          ensures !AttemptAllowed(cfg, anchor, clock, k, 1)
        {
          assert clock(0) <= clock(k + 1);
        }
      }
    }
  }

  // ---------------------------------------------------------------- the loop's own view

  datatype Outcome = Outcome(log: seq<RescueAction>, attempts: nat, ok: bool)

  // What the loop ends with when it has already logged `log`.
  function Finish(cfg: RescueConfig, anchor: int, clock: nat -> int, complete: nat -> bool, attempts: nat, waits: nat,
                  log: seq<RescueAction>): Outcome
    decreases 2 * cfg.maxAttempts - attempts - waits
  {
    if attempts >= cfg.maxAttempts || waits > cfg.maxAttempts then Outcome(log, attempts, false)
    else
      var now := clock(attempts + waits);
      match NextRescueStep(now, anchor, cfg)
      case Stop => Outcome(log, attempts, false)
      case Wait(s) => Finish(cfg, anchor, clock, complete, attempts, waits + 1, log + [Waited(now, s)])
      case Retry =>
        if complete(attempts) then Outcome(log + [Fetched(now, true), PushedBoard], attempts + 1, true)
        else Finish(cfg, anchor, clock, complete, attempts + 1, waits,
                    log + [Fetched(now, false), Rested(cfg.retryPause)])
  }

  lemma {:induction false} FinishIsTrace(cfg: RescueConfig, anchor: int, clock: nat -> int, complete: nat -> bool,
                                         attempts: nat, waits: nat, log: seq<RescueAction>)
    ensures var t := RescueTrace(cfg, anchor, clock, complete, attempts, waits);
      Finish(cfg, anchor, clock, complete, attempts, waits, log) == Outcome(log + t, attempts + Fetches(t), Rescued(t))
    decreases 2 * cfg.maxAttempts - attempts - waits
  {
    hide Fetches, Rescued;
    NoActions();
    if attempts < cfg.maxAttempts && waits <= cfg.maxAttempts {
      var now := clock(attempts + waits);
      match NextRescueStep(now, anchor, cfg) {
        case Stop =>
        case Wait(s) =>
          var head, rest := [Waited(now, s)], RescueTrace(cfg, anchor, clock, complete, attempts, waits + 1);
          FinishIsTrace(cfg, anchor, clock, complete, attempts, waits + 1, log + head);
          HeadThenRest(head, rest, log);
        case Retry =>
          if complete(attempts) {
            LastActions(now);
          } else {
            var head := [Fetched(now, false), Rested(cfg.retryPause)];
            var rest := RescueTrace(cfg, anchor, clock, complete, attempts + 1, waits);
            FinishIsTrace(cfg, anchor, clock, complete, attempts + 1, waits, log + head);
            HeadThenRest(head, rest, log);
          }
      }
    }
  }
}
