/**
 * The schedulers: the stand-alone `Runner`, whose scoring loop and traffic
 * loop each start a new round thread per pass, and the older `Master`, which
 * has only the scoring loop. A first interrupt asks the loops to stop after
 * their current pass; a second one exits at once. Thread start-up is recorded
 * as the list of cycles handed to new threads; what those threads do is the
 * round model.
 */
module Scheduling {
  import opened Wrappers
  import opened Text

  datatype SleepRange = SleepRange(minimum: int, maximum: int)

  /** `SleepRange(duration - jitter, duration + jitter)`: centred on the duration, `2 * jitter` wide. */
  function RoundSleepRange(duration: int, jitter: int): (r: SleepRange)
    ensures r.minimum + jitter == duration && r.maximum - jitter == duration
    ensures r.maximum - r.minimum == 2 * jitter
  {
    SleepRange(duration - jitter, duration + jitter)
  }

  /** What a loop pass hands to a new thread: an official-or-not scoring round, or a traffic cycle with its cap. */
  datatype Cycle = Scoring(round: int) | Traffic(round: int, cap: Option<int>)

  /** The round number traffic cycles use: never official. */
  const TrafficRound: int := -1

  /** The scoring rounds among the cycles, in dispatch order. */
  function ScoringRounds(cycles: seq<Cycle>): seq<int>
  {
    if cycles == [] then []
    else
      var last := cycles[|cycles| - 1];
      ScoringRounds(cycles[..|cycles| - 1]) + (if last.Scoring? then [last.round] else [])
  }

  /** `from, from + 1, from + 2, ...`: consecutive and strictly increasing. */
  predicate Consecutive(rounds: seq<int>, from: int)
  {
    forall k :: 0 <= k < |rounds| ==> rounds[k] == from + k
  }

  /** The next round number extends a consecutive run. */
  lemma ConsecutiveAppend(rounds: seq<int>, from: int, next: int)
    requires Consecutive(rounds, from) && next == from + |rounds|
    ensures Consecutive(rounds + [next], from)
  {
  }

  /** `random.randint(minimum, maximum)`: a ValueError for an empty range, otherwise a value from it, both ends included. */
  method RandInt(minimum: int, maximum: int) returns (r: Result<int, Exception>)
    ensures r.Success? <==> minimum <= maximum
    ensures r.Success? ==> minimum <= r.value <= maximum
    ensures r.Failure? ==> r.error.kind == "ValueError"
  {
    if maximum < minimum {
      return Failure(Exception("ValueError", "empty range for randrange() (" + IntToString(minimum) + ", "
                               + IntToString(maximum + 1) + ", " + IntToString(maximum + 1 - minimum) + ")"));
    }
    var d :| minimum <= d <= maximum;
    r := Success(d);
  }

  /** `time.sleep(d)` refuses a negative duration. */
  function SleepError(d: int): (e: Option<Exception>)
    ensures e.Some? <==> d < 0
  {
    if d < 0 then Some(Exception("ValueError", "sleep length must be non-negative")) else None
  }

  /** The stop flags `(no_more_rounds, exited)` after `n` interrupts: the first sets the flag, any further one exits. */
  function AfterInterrupts(noMoreRounds: bool, exited: bool, n: nat): (bool, bool)
    decreases n
  {
    if n == 0 then (noMoreRounds, exited) else AfterInterrupts(true, exited || noMoreRounds, n - 1)
  }

  /**
   * Any interrupt sets the flag and it is never cleared; the process exits
   * on the second interrupt in all, or on the first once the flag was set.
   */
  lemma {:induction false} InterruptsShape(noMoreRounds: bool, exited: bool, n: nat)
    ensures AfterInterrupts(noMoreRounds, exited, n).0 == (noMoreRounds || n >= 1)
    ensures AfterInterrupts(noMoreRounds, exited, n).1 == (exited || (noMoreRounds && n >= 1) || n >= 2)
    decreases n
  {
    if n > 0 {
      InterruptsShape(true, exited || noMoreRounds, n - 1);
    }
  }

  /** One step of a run, in the order the two loops' steps happened. */
  datatype RunStep =
    | ScoringStep(interrupts: nat) // one pass of the scoring loop, with the interrupts that arrive during its sleep
    | TrafficStep                  // one pass of the traffic loop
    | InterruptStep                // an interrupt between passes

  /** No interrupt arrives, between passes or during a scoring pass's sleep. */
  predicate Quiet(steps: seq<RunStep>)
  {
    forall k :: 0 <= k < |steps| ==> steps[k] != InterruptStep && (steps[k].ScoringStep? ==> steps[k].interrupts == 0)
  }

  /** A quiet prefix extended by one step is quiet exactly when that step is. */
  lemma QuietStep(steps: seq<RunStep>, i: nat)
    requires i < |steps|
    ensures Quiet(steps[..i + 1]) <==> Quiet(steps[..i]) && Quiet([steps[i]])
  {
    assert steps[..i + 1] == steps[..i] + [steps[i]];
  }

  class Runner {
    var currentRound: int
    var sleepRange: SleepRange
    var noMoreRounds: bool
    /** The second interrupt called `sys.exit(1)`. */
    var exited: bool
    /** The exception that ended the scoring loop, if one did. */
    var scoringCrash: Option<Exception>
    /** The exception that ended the traffic loop, if one did. */
    var trafficCrash: Option<Exception>
    /** Every cycle handed to a new thread, in order. */
    var cycles: seq<Cycle>
    /** Every sleep of the scoring loop, in order. */
    var sleeps: seq<int>
    /** The scoring loop stopped between dispatching a round and counting it. */
    var midRound: bool
    ghost var startRound: int

    /**
     * The scoring rounds are `startRound, startRound + 1, ...`, the counter
     * is the next one (or the last one, when the loop was stopped before
     * counting it), every sleep lies in the range, and an exit implies the
     * warm stop before it.
     */
    ghost predicate Valid()
      reads this
    {
      Consecutive(ScoringRounds(cycles), startRound) &&
      currentRound + (if midRound then 1 else 0) == startRound + |ScoringRounds(cycles)| &&
      (midRound ==> exited || scoringCrash.Some?) &&
      (forall k :: 0 <= k < |sleeps| ==> sleepRange.minimum <= sleeps[k] <= sleepRange.maximum) &&
      (exited ==> noMoreRounds)
    }

    /** `Runner(start_round)` with the configured round duration and jitter. */
    constructor (startRound: int, duration: int, jitter: int)
      ensures Valid()
      ensures currentRound == startRound && this.startRound == startRound
      ensures sleepRange == RoundSleepRange(duration, jitter)
      ensures !noMoreRounds && !exited && scoringCrash.None? && trafficCrash.None?
      ensures cycles == [] && sleeps == [] && !midRound
    {
      currentRound := startRound;
      this.startRound := startRound;
      sleepRange := RoundSleepRange(duration, jitter);
      noMoreRounds, exited, midRound := false, false, false;
      scoringCrash, trafficCrash := None, None;
      cycles, sleeps := [], [];
    }

    /** The scoring loop's condition. */
    predicate ScoringActive()
      reads this
    {
      !noMoreRounds && scoringCrash.None?
    }

    /** The traffic loop's condition. */
    predicate TrafficActive()
      reads this
    {
      !noMoreRounds && trafficCrash.None?
    }

    /** `shutdown`: the first interrupt is a warm stop, any later one exits. The flag never goes back. */
    method Shutdown()
      requires Valid()
      modifies this
      ensures Valid()
      ensures noMoreRounds
      ensures exited == (old(exited) || old(noMoreRounds))
      ensures cycles == old(cycles) && sleeps == old(sleeps) && currentRound == old(currentRound)
      ensures midRound == old(midRound) && scoringCrash == old(scoringCrash) && trafficCrash == old(trafficCrash)
      ensures sleepRange == old(sleepRange) && startRound == old(startRound)
    {
      if noMoreRounds {
        exited := true;
      } else {
        noMoreRounds := true;
      }
    }

    /**
     * One pass of `perform_scoring`: starts the round, draws and sleeps the
     * pause, then counts the round. A draw from an empty range or a negative
     * pause ends the loop with its exception, and an exit during the sleep
     * ends it before the round is counted.
     */
    method ScoringPass(interrupts: nat)
      requires Valid() && ScoringActive() && !midRound
      modifies this
      ensures Valid()
      ensures cycles == old(cycles) + [Scoring(old(currentRound))]
      ensures !midRound ==> currentRound == old(currentRound) + 1
      ensures midRound ==> currentRound == old(currentRound)
      ensures midRound <==> exited || scoringCrash.Some?
      // the pause slept, and the interrupts that arrived during it
      ensures scoringCrash.None? ==>
                |sleeps| == |old(sleeps)| + 1 && sleeps[..|old(sleeps)|] == old(sleeps) && 0 <= sleeps[|old(sleeps)|]
      ensures scoringCrash.None? ==> (noMoreRounds, exited) == AfterInterrupts(old(noMoreRounds), old(exited), interrupts)
      // the loop crashes exactly on a failed draw or a negative pause, before sleeping
      ensures scoringCrash.Some? ==> sleeps == old(sleeps) && noMoreRounds == old(noMoreRounds) && exited == old(exited)
      ensures scoringCrash.Some? ==> sleepRange.maximum < sleepRange.minimum || sleepRange.minimum < 0
      ensures sleepRange.maximum < sleepRange.minimum || sleepRange.maximum < 0 ==> scoringCrash.Some?
      // an uninterrupted pass with a non-negative, non-empty range always counts its round
      ensures 0 <= sleepRange.minimum <= sleepRange.maximum && interrupts == 0 ==>
                !midRound && ScoringActive() && currentRound == old(currentRound) + 1
      ensures trafficCrash == old(trafficCrash) && sleepRange == old(sleepRange) && startRound == old(startRound)
    {
      ScoringRoundsAppend(cycles, Scoring(currentRound));
      ConsecutiveAppend(ScoringRounds(cycles), startRound, currentRound);
      cycles := cycles + [Scoring(currentRound)];
      var draw := RandInt(sleepRange.minimum, sleepRange.maximum);
      if draw.Failure? {
        scoringCrash, midRound := Some(draw.error), true;
        return;
      }
      var crash := SleepError(draw.value);
      if crash.Some? {
        scoringCrash, midRound := crash, true;
        return;
      }
      sleeps := sleeps + [draw.value];
      InterruptsShape(noMoreRounds, exited, interrupts);
      var flags := AfterInterrupts(noMoreRounds, exited, interrupts);
      noMoreRounds, exited := flags.0, flags.1;
      if exited {
        midRound := true;
        return;
      }
      currentRound := currentRound + 1;
    }

    /** One pass of `generate_traffic`: starts an unofficial, capped cycle, then sleeps. */
    method TrafficPass(cap: Option<int>, pause: int)
      requires Valid() && TrafficActive()
      modifies this
      ensures Valid()
      ensures cycles == old(cycles) + [Traffic(TrafficRound, cap)]
      ensures trafficCrash == SleepError(pause)
      ensures currentRound == old(currentRound) && sleeps == old(sleeps) && midRound == old(midRound)
      ensures noMoreRounds == old(noMoreRounds) && exited == old(exited) && scoringCrash == old(scoringCrash)
      ensures sleepRange == old(sleepRange) && startRound == old(startRound)
    {
      ScoringRoundsAppend(cycles, Traffic(TrafficRound, cap));
      cycles := cycles + [Traffic(TrafficRound, cap)];
      trafficCrash := SleepError(pause);
    }

    /**
     * `run`: the traffic loop and the scoring loop, their passes in the order
     * given; a pass whose loop has already stopped does not happen.
     * Nothing is started once the stop flag is set.
     */
    method Run(steps: seq<RunStep>, cap: Option<int>, pause: int)
      requires Valid() && !midRound
      modifies this
      ensures Valid()
      ensures old(cycles) <= cycles && |cycles| <= |old(cycles)| + |steps|
      ensures old(noMoreRounds) ==> cycles == old(cycles)
      ensures (old(noMoreRounds) ==> noMoreRounds)
      // an interrupt between passes stops both loops: no cycle starts after it
      ensures forall k :: 0 <= k < |steps| && steps[k].InterruptStep? ==> noMoreRounds && |cycles| <= |old(cycles)| + k
      // without interrupts, failed draws or negative pauses, every pass starts its cycle and the loops keep going
      ensures !old(noMoreRounds) && old(scoringCrash).None? && old(trafficCrash).None? &&
              0 <= sleepRange.minimum <= sleepRange.maximum && 0 <= pause && Quiet(steps) ==>
                |cycles| == |old(cycles)| + |steps| && ScoringActive() && TrafficActive() && !midRound
      ensures sleepRange == old(sleepRange) && startRound == old(startRound)
    {
      ghost var calm := !noMoreRounds && scoringCrash.None? && trafficCrash.None? &&
                        0 <= sleepRange.minimum <= sleepRange.maximum && 0 <= pause;
      var i := 0;
      while i < |steps|
        invariant 0 <= i <= |steps|
        invariant Valid()
        invariant old(cycles) <= cycles && |cycles| <= |old(cycles)| + i
        invariant old(noMoreRounds) ==> cycles == old(cycles)
        invariant midRound ==> !ScoringActive()
        invariant (old(noMoreRounds) ==> noMoreRounds)
        invariant forall k :: 0 <= k < i && steps[k].InterruptStep? ==> noMoreRounds && |cycles| <= |old(cycles)| + k
        invariant calm && Quiet(steps[..i]) ==>
                    |cycles| == |old(cycles)| + i && ScoringActive() && TrafficActive() && !midRound
        invariant sleepRange == old(sleepRange) && startRound == old(startRound)
      {
        QuietStep(steps, i);
        match steps[i] {
          case ScoringStep(n) =>
            if ScoringActive() {
              ScoringPass(n);
            }
          case TrafficStep =>
            if TrafficActive() {
              TrafficPass(cap, pause);
            }
          case InterruptStep =>
            Shutdown();
        }
        i := i + 1;
      }
      assert steps[..i] == steps;
    }
  }

  class Master {
    var currentRound: int
    var sleepRange: SleepRange
    var noMoreRounds: bool
    var exited: bool
    var crash: Option<Exception>
    /** Every round handed to a new thread, in order. */
    var rounds: seq<int>
    var sleeps: seq<int>
    var midRound: bool
    ghost var startRound: int

    /** As for the runner: consecutive rounds from the start, the counter one past the last counted one, sleeps in range. */
    ghost predicate Valid()
      reads this
    {
      Consecutive(rounds, startRound) &&
      currentRound + (if midRound then 1 else 0) == startRound + |rounds| &&
      (midRound ==> exited || crash.Some?) &&
      (forall k :: 0 <= k < |sleeps| ==> sleepRange.minimum <= sleeps[k] <= sleepRange.maximum) &&
      (exited ==> noMoreRounds)
    }

    /** `Master(start_round)` with the configured round duration and jitter. */
    constructor (startRound: int, duration: int, jitter: int)
      ensures Valid()
      ensures currentRound == startRound && this.startRound == startRound
      ensures sleepRange == RoundSleepRange(duration, jitter)
      ensures !noMoreRounds && !exited && crash.None? && rounds == [] && sleeps == [] && !midRound
    {
      currentRound := startRound;
      this.startRound := startRound;
      sleepRange := RoundSleepRange(duration, jitter);
      noMoreRounds, exited, midRound := false, false, false;
      crash := None;
      rounds, sleeps := [], [];
    }

    /** `shutdown`: the first interrupt is a warm stop, any later one exits. */
    method Shutdown()
      requires Valid()
      modifies this
      ensures Valid()
      ensures noMoreRounds
      ensures exited == (old(exited) || old(noMoreRounds))
      ensures rounds == old(rounds) && sleeps == old(sleeps) && currentRound == old(currentRound)
      ensures midRound == old(midRound) && crash == old(crash)
      ensures sleepRange == old(sleepRange) && startRound == old(startRound)
    {
      if noMoreRounds {
        exited := true;
      } else {
        noMoreRounds := true;
      }
    }

    /**
     * `run`: pass after pass, starts the current round, sleeps a drawn pause
     * and counts the round, until the stop flag is set, an exception ends the
     * loop, or the interrupts given for each pass run out.
     */
    method Run(interrupts: seq<nat>)
      requires Valid() && !midRound
      modifies this
      ensures Valid()
      ensures old(noMoreRounds) || old(crash).Some? ==> rounds == old(rounds) && currentRound == old(currentRound)
      ensures old(rounds) <= rounds && |rounds| <= |old(rounds)| + PassesRun(interrupts)
      ensures !midRound ==> currentRound == old(currentRound) + |rounds| - |old(rounds)|
      // with a pause that can neither fail to draw nor be negative, every tick up to the first interrupted one dispatches a round
      ensures !old(noMoreRounds) && old(crash).None? && 0 <= sleepRange.minimum <= sleepRange.maximum ==>
                crash.None? && |rounds| == |old(rounds)| + PassesRun(interrupts) &&
                (noMoreRounds <==> exists k :: 0 <= k < |interrupts| && interrupts[k] > 0)
      ensures sleepRange == old(sleepRange) && startRound == old(startRound)
    {
      ghost var calm := !noMoreRounds && crash.None? && 0 <= sleepRange.minimum <= sleepRange.maximum;
      var i := 0;
      while i < |interrupts| && !noMoreRounds && crash.None?
        invariant 0 <= i <= |interrupts|
        invariant Valid()
        invariant old(rounds) <= rounds && |rounds| <= |old(rounds)| + i
        invariant midRound ==> noMoreRounds || crash.Some?
        invariant !midRound ==> currentRound == old(currentRound) + |rounds| - |old(rounds)|
        invariant old(noMoreRounds) || old(crash).Some? ==> rounds == old(rounds) && currentRound == old(currentRound)
        invariant (old(noMoreRounds) ==> noMoreRounds) && (old(crash).Some? ==> crash.Some?)
        invariant i <= PassesRun(interrupts)
        invariant !noMoreRounds && crash.None? ==>
                    PassesRun(interrupts) == i + PassesRun(interrupts[i..]) && forall k :: 0 <= k < i ==> interrupts[k] == 0
        invariant !old(noMoreRounds) && noMoreRounds ==> i == PassesRun(interrupts) && 0 < i && interrupts[i - 1] > 0
        invariant calm ==> crash.None? && |rounds| == |old(rounds)| + i
        invariant sleepRange == old(sleepRange) && startRound == old(startRound)
      {
        PassesRunStep(interrupts, i);
        Pass(interrupts[i]);
        InterruptsShape(false, false, interrupts[i]);
        i := i + 1;
      }
      PassesRunShape(interrupts);
    }

    /**
     * One pass of `run`: starts the current round, draws and sleeps the
     * pause (during which `interrupts` interrupts arrive), then counts the
     * round unless the process exited or the draw or the sleep raised.
     */
    method Pass(interrupts: nat)
      requires Valid() && !noMoreRounds && crash.None? && !midRound
      modifies this
      ensures Valid()
      ensures rounds == old(rounds) + [old(currentRound)]
      ensures !midRound ==> currentRound == old(currentRound) + 1
      ensures midRound ==> currentRound == old(currentRound)
      ensures midRound <==> exited || crash.Some?
      ensures crash.None? ==>
                |sleeps| == |old(sleeps)| + 1 && sleeps[..|old(sleeps)|] == old(sleeps) && 0 <= sleeps[|old(sleeps)|]
      ensures crash.None? ==> (noMoreRounds, exited) == AfterInterrupts(old(noMoreRounds), old(exited), interrupts)
      ensures crash.Some? ==> sleeps == old(sleeps) && noMoreRounds == old(noMoreRounds) && exited == old(exited)
      ensures crash.Some? ==> sleepRange.maximum < sleepRange.minimum || sleepRange.minimum < 0
      ensures sleepRange.maximum < sleepRange.minimum || sleepRange.maximum < 0 ==> crash.Some?
      ensures 0 <= sleepRange.minimum <= sleepRange.maximum && interrupts == 0 ==>
                !midRound && !noMoreRounds && crash.None? && currentRound == old(currentRound) + 1
      ensures sleepRange == old(sleepRange) && startRound == old(startRound)
    {
      ConsecutiveAppend(rounds, startRound, currentRound);
      rounds := rounds + [currentRound];
      var draw := RandInt(sleepRange.minimum, sleepRange.maximum);
      if draw.Failure? {
        crash, midRound := Some(draw.error), true;
        return;
      }
      var failure := SleepError(draw.value);
      if failure.Some? {
        crash, midRound := failure, true;
        return;
      }
      sleeps := sleeps + [draw.value];
      InterruptsShape(noMoreRounds, exited, interrupts);
      var flags := AfterInterrupts(noMoreRounds, exited, interrupts);
      noMoreRounds, exited := flags.0, flags.1;
      if exited {
        midRound := true;
        return;
      }
      currentRound := currentRound + 1;
    }
  }

  /** The number of ticks `run` makes when each tick's interrupts are given in turn: up to and including the first interrupted one. */
  function PassesRun(interrupts: seq<nat>): nat
  {
    if interrupts == [] then 0
    else if interrupts[0] > 0 then 1
    else 1 + PassesRun(interrupts[1..])
  }

  /** The count from position `i` on, one tick at a time. */
  lemma PassesRunStep(interrupts: seq<nat>, i: nat)
    requires i < |interrupts|
    ensures PassesRun(interrupts[i..]) == if interrupts[i] > 0 then 1 else 1 + PassesRun(interrupts[i + 1..])
  {
    assert interrupts[i..][1..] == interrupts[i + 1..];
  }

  /**
   * At most one tick per entry; every tick when none is interrupted; and a
   * loop that stops early stops right after an interrupted tick.
   */
  lemma {:induction false} PassesRunShape(interrupts: seq<nat>)
    ensures PassesRun(interrupts) <= |interrupts|
    ensures (forall k :: 0 <= k < |interrupts| ==> interrupts[k] == 0) <==> PassesRun(interrupts) == |interrupts| && (interrupts == [] || interrupts[|interrupts| - 1] == 0)
    ensures 0 < PassesRun(interrupts) < |interrupts| ==> interrupts[PassesRun(interrupts) - 1] > 0
    ensures forall k :: 0 <= k < PassesRun(interrupts) - 1 ==> interrupts[k] == 0
  {
    if interrupts != [] && interrupts[0] == 0 {
      PassesRunShape(interrupts[1..]);
    }
  }

  /** The scoring rounds of the runner are exactly its consecutive round numbers, in order. */
  lemma {:induction false} ScoringRoundsAppend(cycles: seq<Cycle>, c: Cycle)
    ensures ScoringRounds(cycles + [c]) == ScoringRounds(cycles) + (if c.Scoring? then [c.round] else [])
  {
    assert (cycles + [c])[..|cycles|] == cycles;
  }
}
