/**
 * The click command line of the package: `run` (optionally discarding the
 * recorded rounds, or resuming after the last one) and the one-off `check`.
 */
module Cli {
  import opened Wrappers
  import opened Models
  import opened Database
  import opened Credentials
  import opened Invoker
  import opened Rounds
  import opened Scheduling

  /** The smallest round number `--start-round` accepts (`IntRange(min=1)`). */
  const FirstRound := 1

  /** click's refusal of a `--start-round` below the range. */
  const StartRoundOutOfRange: Exception :=
    Exception("UsageError", "Invalid value for '--start-round': not in the valid range of 1 or greater.")

  /**
   * The round the runner starts at: one past the largest recorded round when
   * resuming and a round exists, else the requested round.
   */
  function RunStartRound(resume: bool, startRound: int, maxRound: Option<int>): (r: int)
    ensures resume && maxRound.Some? ==> r == maxRound.value + 1
    ensures !(resume && maxRound.Some?) ==> r == startRound
  {
    if resume && maxRound.Some? then maxRound.value + 1 else startRound
  }

  /**
   * Resuming never starts at a round number the table already holds, and the
   * start is never below the accepted range when every recorded number is
   * in it.
   */
  lemma ResumeStartsAfterRecorded(rounds: seq<Round>, startRound: int)
    requires startRound >= FirstRound
    requires forall i :: 0 <= i < |rounds| ==> rounds[i].number >= FirstRound
    ensures var r := RunStartRound(true, startRound, MaxNumber(rounds));
      r >= FirstRound && forall i :: 0 <= i < |rounds| ==> rounds[i].number < r
  {
    var m := MaxNumber(rounds);
    if m.Some? {
      var i :| 0 <= i < |rounds| && rounds[i].number == m.value;
      assert m.value >= FirstRound;
    }
  }

  /**
   * The database part of `run`: with `--reset` every round row is deleted
   * (the checks stay), then with `--resume` the start moves past the
   * largest remaining round number.
   */
  method PrepareRun(db: Db, reset: bool, resume: bool, startRound: int) returns (start: int)
    requires db.Valid()
    modifies db
    ensures db.Valid()
    ensures reset ==> db.rounds == []
    ensures !reset ==> db.rounds == old(db.rounds)
    ensures db.teams == old(db.teams) && db.services == old(db.services)
    ensures db.teamServices == old(db.teamServices) && db.checks == old(db.checks)
    ensures start == RunStartRound(resume, startRound, db.MaxRoundNumber())
  {
    if reset {
      db.DeleteRounds();
    }
    start := startRound;
    if resume {
      var maxRound := db.MaxRoundNumber();
      if maxRound.Some? {
        start := maxRound.value + 1;
      }
    }
  }

  /**
   * `run`: an out-of-range `--start-round` is refused before anything
   * happens; otherwise the rounds are reset and resumed as asked and a
   * runner starting at the chosen round is run through `steps`. The tables
   * afterwards are those the command itself leaves; the writes of the
   * rounds the runner started are `RunnerRound` of its recorded cycles.
   */
  method RunCommand(db: Db, reset: bool, resume: bool, startRound: int, duration: int, jitter: int,
                    steps: seq<RunStep>, cap: Option<int>, pause: int)
    returns (r: Result<Runner, Exception>)
    requires db.Valid()
    modifies db
    ensures db.Valid()
    ensures startRound < FirstRound ==> r == Failure(StartRoundOutOfRange) && db.rounds == old(db.rounds)
    ensures startRound >= FirstRound ==> r.Success? && fresh(r.value) && r.value.Valid()
    ensures startRound >= FirstRound ==>
      r.value.startRound == RunStartRound(resume, startRound, if reset then None else old(db.MaxRoundNumber()))
    ensures startRound >= FirstRound && reset ==> db.rounds == []
    ensures !(startRound >= FirstRound && reset) ==> db.rounds == old(db.rounds)
    ensures db.teams == old(db.teams) && db.services == old(db.services)
    ensures db.teamServices == old(db.teamServices) && db.checks == old(db.checks)
  {
    if startRound < FirstRound {
      return Failure(StartRoundOutOfRange);
    }
    var start := PrepareRun(db, reset, resume, startRound);
    var runner := new Runner(start, duration, jitter);
    runner.Run(steps, cap, pause);
    r := Success(runner);
  }

  /**
   * `check`: the service and team filters go to `perform_checks` unchanged;
   * an empty filter covers every service or team, and every task is an
   * unofficial one.
   */
  method CheckCommand(db: Db, registry: Registry, services: seq<int>, teams: seq<int>)
    returns (r: Result<seq<Task>, Exception>, ghost built: seq<Task>, ghost picks: seq<Config>)
    ensures Describes(db.teamServices, Pairs(SelectTeams(db.teams, teams), SelectServices(db.services, services)),
                      DefaultRound, built, picks)
    ensures services == [] && teams == [] ==> |built| == |db.teams| * |db.services|
    ensures r == DispatchAll(registry, built)
    ensures forall i :: 0 <= i < |built| ==> !built[i].official && built[i].roundNumber == DefaultRound
  {
    r, built, picks := PerformChecks(db, registry, services, teams);
    PairsShape(SelectTeams(db.teams, teams), SelectServices(db.services, services));
    PerformChecksUnofficial(db.teamServices,
      Pairs(SelectTeams(db.teams, teams), SelectServices(db.services, services)), built, picks, registry);
  }
}
