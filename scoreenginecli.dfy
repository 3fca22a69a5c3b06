/**
 * The argparse launcher: seeding (`--setup`, and `--reset` before any mode),
 * the one-off dry-run check, the master or stand-alone scheduler starting at
 * the chosen round, and the worker.
 */
module ScoreEngineCli {
  import opened Wrappers
  import opened Models
  import opened Database
  import opened Rounds
  import opened Scheduling
  import opened Seeding
  import Cli

  /**
   * The parsed arguments. A list option left out is `None`; the mode flags
   * are the mutually exclusive `--setup`, `--master`, `--worker`,
   * `--stand-alone` and `--check`.
   */
  datatype Args = Args(
    setup: bool, master: bool, worker: bool, standAlone: bool, check: bool,
    checkAll: bool, checkServices: Option<seq<int>>, checkTeams: Option<seq<int>>,
    reset: bool, resume: bool, startRound: Option<int>)

  /** What `main` ends in. */
  datatype Outcome =
    | SetUp
    | Checked
    | Scheduled(master: Master, useTaskQueue: bool)
    | WorkerStarted
    | Raised(error: Exception)

  /** A list option's truth value: given and non-empty. */
  predicate Truthy(ids: Option<seq<int>>)
  {
    ids.Some? && ids.value != []
  }

  /** `parser.error` prints the usage and the message and exits with status 2. */
  function UsageError(message: string): Exception
  {
    Exception("SystemExit", message)
  }

  const CheckAllWithIds := UsageError(
    "-ca/--check-all cannot be used with -cs/--check-service or -ct/--check-team")
  const CheckWithoutTargets := UsageError(
    "-c/--check requires either -ca/--check-all OR one or both of -cs/--check-service and -ct/--check-team)")

  /** `serialize_check` has no `dry_run` parameter. */
  const DryRunRefused := Exception("TypeError", "serialize_check() got an unexpected keyword argument 'dry_run'")

  const UnsupportedMode := Exception("NotImplementedError", "Unsupported mode")

  /**
   * `_validate_check_args`: a check asks either for everything or for some
   * services and/or teams, never both and never neither.
   */
  function ValidateCheckArgs(checkAll: bool, services: Option<seq<int>>, teams: Option<seq<int>>): (r: Option<Exception>)
    ensures r.None? <==> checkAll != (Truthy(services) || Truthy(teams))
    ensures r.Some? ==> r.value == (if checkAll then CheckAllWithIds else CheckWithoutTargets)
  {
    if checkAll && (Truthy(services) || Truthy(teams)) then Some(CheckAllWithIds)
    else if !(checkAll || Truthy(services) || Truthy(teams)) then Some(CheckWithoutTargets)
    else None
  }

  /**
   * The start round of `main`: with `--resume`, one past the largest
   * recorded round or 1 on an empty table; otherwise a given non-zero
   * `--start-round`, else 1.
   */
  function StartRound(resume: bool, startRound: Option<int>, maxRound: Option<int>): (r: int)
    ensures resume ==> r == (if maxRound.Some? then maxRound.value + 1 else 1)
    ensures !resume ==> r == (if startRound.Some? && startRound.value != 0 then startRound.value else 1)
  {
    if resume then (if maxRound.Some? then maxRound.value + 1 else 1)
    else if startRound.Some? && startRound.value != 0 then startRound.value
    else 1
  }

  /** Resuming starts past every recorded round, and at 1 on an empty table. */
  lemma ResumeSkipsRecordedRounds(rounds: seq<Round>, startRound: Option<int>)
    ensures rounds == [] ==> StartRound(true, startRound, MaxNumber(rounds)) == 1
    ensures forall i :: 0 <= i < |rounds| ==> rounds[i].number < StartRound(true, startRound, MaxNumber(rounds))
  {
  }

  /**
   * The two command lines agree on the start round except when resuming
   * over an empty table: the click `run` then keeps the requested round,
   * the launcher starts at 1.
   */
  lemma StartRoundsAgree(resume: bool, startRound: int, maxRound: Option<int>)
    requires startRound >= 1
    ensures StartRound(resume, Some(startRound), maxRound) == Cli.RunStartRound(resume, startRound, maxRound)
        <==> !resume || maxRound.Some? || startRound == 1
  {
  }

  /** The services (or teams) a check covers: all of them when no ids are given, else those listed. */
  function WithIds<T(!new)>(rows: seq<T>, id: T -> int, ids: Option<seq<int>>): (r: seq<T>)
    ensures forall x :: x in r <==> x in rows && (ids.None? || id(x) in ids.value)
    ensures |r| <= |rows|
  {
    if ids.None? then rows
    else if rows == [] then []
    else (if id(rows[0]) in ids.value then [rows[0]] else []) + WithIds(rows[1..], id, ids)
  }

  /**
   * `check`: the first team and service it reaches would be serialized with
   * `dry_run=True`, which `serialize_check` refuses; with nothing selected it
   * finishes without checking anything.
   */
  function CheckMode(db: Db, services: Option<seq<int>>, teams: Option<seq<int>>): (r: Outcome)
    reads db
    ensures r == Checked || r == Raised(DryRunRefused)
    ensures r == Checked <==> (forall s :: s in db.services ==> services.Some? && s.id !in services.value) ||
                              (forall t :: t in db.teams ==> teams.Some? && t.id !in teams.value)
  {
    var chosenServices := WithIds(db.services, (s: Service) => s.id, services);
    var chosenTeams := WithIds(db.teams, (t: Team) => t.id, teams);
    if chosenServices != [] && chosenTeams != [] then
      assert chosenServices[0] in chosenServices && chosenTeams[0] in chosenTeams;
      Raised(DryRunRefused)
    else
      Checked
  }

  /**
   * `main`: `--reset` re-seeds first (an exception there ends the run);
   * then `--setup` seeds, `--check` validates its arguments and checks,
   * `--master` and `--stand-alone` start a scheduler at the chosen round
   * (through the task queue only for `--master`), `--worker` starts the
   * worker, and anything else is refused. The tables afterwards are those
   * the launcher itself leaves; the writes of the rounds a master started
   * are `MasterRound` of its recorded rounds.
   */
  method Launch(db: Db, cfg: SeedConfig, args: Args, duration: int, jitter: int, interrupts: seq<nat>)
    returns (r: Outcome)
    requires db.Valid()
    modifies db
    ensures db.Valid()
    ensures args.reset && Plan(cfg).Failure? ==> r == Raised(Plan(cfg).error)
    ensures (args.reset || args.setup) ==>
      if Plan(cfg).Success? then
        db.teams == Plan(cfg).value.0 && db.services == Plan(cfg).value.1 &&
        db.teamServices == Plan(cfg).value.2 && db.rounds == [] && db.checks == []
      else
        db.teams == [] && db.services == [] && db.teamServices == [] && db.rounds == [] && db.checks == []
    ensures !(args.reset || args.setup) ==>
      db.teams == old(db.teams) && db.services == old(db.services) && db.teamServices == old(db.teamServices) &&
      db.rounds == old(db.rounds) && db.checks == old(db.checks)
    ensures !(args.reset && Plan(cfg).Failure?) ==>
      if args.setup then
        r == (if Plan(cfg).Success? then SetUp else Raised(Plan(cfg).error))
      else if args.check then
        r == (if ValidateCheckArgs(args.checkAll, args.checkServices, args.checkTeams).Some?
              then Raised(ValidateCheckArgs(args.checkAll, args.checkServices, args.checkTeams).value)
              else CheckMode(db, args.checkServices, args.checkTeams))
      else if args.standAlone || args.master then
        r.Scheduled? && fresh(r.master) && r.master.Valid() && r.useTaskQueue == args.master &&
        r.master.startRound == StartRound(args.resume, args.startRound,
                                          if args.reset then None else old(db.MaxRoundNumber()))
      else if args.worker then
        r == WorkerStarted
      else
        r == Raised(UnsupportedMode)
  {
    if args.reset {
      var err := Seed(db, cfg);
      if err.Some? {
        return Raised(err.value);
      }
    }
    if args.setup {
      var err := Seed(db, cfg);
      r := if err.Some? then Raised(err.value) else SetUp;
    } else if args.check {
      var invalid := ValidateCheckArgs(args.checkAll, args.checkServices, args.checkTeams);
      if invalid.Some? {
        return Raised(invalid.value);
      }
      r := CheckMode(db, args.checkServices, args.checkTeams);
    } else if args.standAlone || args.master {
      var start := 1;
      if args.resume {
        var maxRound := db.MaxRoundNumber();
        if maxRound.Some? {
          start := maxRound.value + 1;
        }
      } else if args.startRound.Some? && args.startRound.value != 0 {
        start := args.startRound.value;
      }
      var master := new Master(start, duration, jitter);
      master.Run(interrupts);
      r := Scheduled(master, args.master);
    } else if args.worker {
      r := WorkerStarted;
    } else {
      r := Raised(UnsupportedMode);
    }
  }
}
