# scoreengine2 in Dafny

A model of the scoring core of ScoreEngine v2, the engine behind an
attack/defence competition. The engine periodically checks every enabled
team's copy of every enabled service and records whether each check passed.
The model covers:

- **Credentials** (`credentials.dfy`). `serialize_check` gathers a team and
  service's configuration rows by key, picks one value per key, splits
  `USERPASS` at the first `||` into `USER` and `PASS`, and builds the task
  record.
- **Sessions** (`sessions.dfy`). The `session_scope` transaction protocol:
  commit on a normal exit, roll back and re-raise on a database error, close
  on every path.
- **Invoker** (`invoker.dfy`). Covers three pieces:
  - `CheckData`, the view of a task record that probes see;
  - the `check_function` decorator, which logs a three-line preamble, turns
    an exception into a failure with an `ERROR:` line, takes `passed` from the
    truthiness of the probe's return value, and appends `Check successful!`;
  - `check_task` and the lookup of a probe by module and function name.
- **Rounds** (`rounds.dfy`). `schedule_round_checks` of the `Runner` and of
  the older `Master`:
  - the task list over enabled teams × enabled services;
  - the shuffle and the `max_checks` slice;
  - dispatch;
  - the round row;
  - one check row per official result.

  It also covers `perform_checks`.
- **Scheduling** (`scheduling.dfy`). The `Runner` and `Master` classes: the
  round counter, the sleep range, the two-step shutdown, and the scoring and
  traffic loops.
- **Seeding** (`seeding.dfy`). `init_from_config` and its two copies, which
  create:
  - the teams, the last of which is the check team;
  - the services, whose check is split at the first `.`;
  - one configuration row per team and datum, with `{team}` filled in.
- **Command lines** (`cli.py`, `scoreenginecli.py`). The click `run` and
  `check` commands (`cli.dfy`), and the argparse launcher's argument
  validation, start-round choice and mode dispatch (`scoreenginecli.dfy`).
- **Entities** (`models.dfy`). Each entity is a datatype with a constructor
  function that fills in the defaults.
- **Database** (`database.dfy`). The database is the class `Db`, which holds
  one sequence per table.

Three Python built-ins the core relies on are modelled where the core uses
them:

- `str.format` (`pyformat.dfy`), for every logged line, team name and seeded
  value;
- `str.split(sep, 1)`, decimal `str(int)` and `str.find` (`text.dfy`);
- UTF-8 `bytes.decode` (`utf8.dfy`), for byte messages handed to
  `add_output`.

Randomness is nondeterministic choice in methods, constrained by what
the source promises:

- `random.choice` yields a member of the list;
- `random.randint` yields a value in the range, ends included;
- `random.shuffle` yields a permutation.

Timestamps are parameters. A probe is an abstract `ProbeRun`: the steps it
takes on the record, then a return value or an exception.

Where the code and the written description of the system disagree, the model
follows the code:

- After the split, `USERPASS` stays in the configuration.
- A negative `max_checks` behaves as a Python slice, dropping that many
  tasks from the end.
- The `Master` inserts a round row for any round number, positive or not.
- When dispatch fails, the runner's official round row has already been
  committed and stays incomplete.
- The `--check` mode of `scoreenginecli.py` calls `serialize_check` with a
  `dry_run` argument it does not accept. As soon as one team and one service
  are selected, it raises that `TypeError` (`ScoreEngineCli.CheckMode`).
- The two command lines disagree on resuming over an empty round table:
  `cli.py` keeps the requested round, `scoreenginecli.py` starts at 1
  (`ScoreEngineCli.StartRoundsAgree`).

## Model

| member | source | states |
|---|---|---|
| Models.NewRound | scoreengine/models.py:10-20 | a new round row has the given number, is not completed, has no finish time and starts at the given time |
| Models.NewTeam | scoreengine/models.py:28-34 | a team is enabled; it is the check team only when a non-None `check_team` says so |
| Models.NewService | scoreengine/models.py:49-54 | a service keeps its name, group and check, and is enabled |
| Models.NewTeamService | scoreengine/models.py:70-87 | `edit` defaults to true, `hidden` to false and `order` to 0; each is overridden exactly when its argument is not None |
| Database.Db.FindRound | scoreengine/runner.py:150-153 | the index of a round row with the number, or None exactly when no row has it |
| Database.Db.MaxRoundNumber | scoreengine/cli.py:66 | `max(number)` is NULL exactly on an empty table, else a stored number no smaller than any other |
| Database.MaxNumber | scoreenginecli.py:94 | the same aggregate over a list of rounds |
| Database.Db.EnabledTeams | scoreengine/runner.py:96 | exactly the enabled teams |
| Database.Db.EnabledServices | scoreengine/runner.py:95 | exactly the enabled services |
| Database.Db.AddRound | scoreengine/runner.py:92-93 | a new incomplete round row, or an IntegrityError and no change when the number is taken (unique constraint, scoreengine/models.py:14) |
| Database.Db.DeleteRounds | scoreengine/cli.py:60-62 | every round row goes; teams, services, configuration rows and check rows stay |
| Database.Db.Recreate | scoreengine/setup.py:7-8 | `drop_all` then `create_all` leave every table empty |
| Database.Db.CommitRound | scoreengine/runner.py:136-157 | the check rows are appended and the one round row is marked completed with its finish time |
| Database.Db.CommitSeed | scoreengine/setup.py:6-34 | the seeded teams, services and rows become the table contents when names are unique |
| Sessions.Session.Add | scoreengine/setup.py:15 | `session.add` queues one pending change and touches nothing else |
| Sessions.Session.Commit | scoreengine/utils.py:25 | a successful commit makes the pending changes durable; a failing one keeps them pending and raises |
| Sessions.Session.Rollback | scoreengine/utils.py:27 | pending changes are discarded, durable ones kept |
| Sessions.Session.Close | scoreengine/utils.py:30 | the session is closed and its pending changes discarded |
| Sessions.RunActions | scoreengine/utils.py:24 | running the `with` body on a session gives the state and exception of the body's specification `RunBody` |
| Sessions.Scope | scoreengine/utils.py:20-30 | the whole `session_scope` run gives the durable state, event log and exception of its specification `ScopeResult` |
| Sessions.RunBodyFacts | scoreengine/utils.py:24 | the body only ever commits; durable changes are a prefix of everything added; without a raise, everything added is durable or pending |
| Sessions.ScopeCloses | scoreengine/utils.py:29-30 | the session is closed exactly once, as the last event, on every path |
| Sessions.ScopeRollsBack | scoreengine/utils.py:26-28 | a rollback happens exactly when a database error escapes, and it comes just before the close |
| Sessions.ScopeCommits | scoreengine/utils.py:24-25 | on a normal exit everything added is durable and the log ends commit, close; durable changes never exceed what was added; a failed scope without flushes changes nothing |
| Sessions.ScopeReraises | scoreengine/utils.py:26-28 | the exception leaving the scope is the body's, else the final commit's |
| Text.Split1 | scoreengine/utils.py:54 | `split(sep, 1)`: two pieces exactly when the separator occurs, rejoining gives the input, and the first piece holds no separator |
| Credentials.PairRows | scoreengine/utils.py:35-40 | exactly the key/value pairs of the rows for this team and service |
| Credentials.ValuesForNonEmpty | scoreengine/utils.py:43-45 | a key has values exactly when some row has it, and every value comes from such a row |
| Credentials.GroupByKey | scoreengine/utils.py:43-45 | the `defaultdict(list)` has one entry per key in the rows, listing that key's values |
| Credentials.ChooseValues | scoreengine/utils.py:48-49 | one value per key, each taken from that key's list |
| Credentials.SplitUserPass | scoreengine/utils.py:52-54 | with `||` in `USERPASS`: `USER` is the text before the first `||`, `PASS` the rest, `USERPASS` is kept and other keys are unchanged; otherwise the configuration is unchanged |
| Credentials.ResolvedConfig | scoreengine/utils.py:43-54 | every key in the rows is resolved; there are no other keys except the split's `USER`/`PASS`; every other value is one stored for its key |
| Credentials.ResolveConfig | scoreengine/utils.py:42-54 | the resolved configuration is the split of some per-key choice from the rows |
| Credentials.Describe | scoreengine/utils.py:56-69 | the task is official exactly when the round is positive, with empty output and `passed` false, the service's group and check, and the ids and names copied |
| Credentials.SerializeCheck | scoreengine/utils.py:33-70 | the task describes this team and service with a configuration chosen from their rows |
| Invoker.GetCheckFunction | scoreengine/tasks.py:20-24 | the probe `scoreengine.checks.<file>.<function>` when both exist; else a module-not-found error for an unknown module or an AttributeError for an unknown function |
| Invoker.CheckData.constructor | scoreengine/tasks.py:28-29 | the view wraps the given record |
| Invoker.CheckData.Config | scoreengine/tasks.py:31-33 | the read-only `config` property is the record's configuration; no probe step can change it (`RunStepsAppends`) |
| Invoker.CheckData.ServiceName | scoreengine/tasks.py:35-37 | the read-only `service_name` property is the record's service name; no probe step can change it (`RunStepsAppends`) |
| Invoker.CheckData.Passed | scoreengine/tasks.py:39-41 | the `passed` property is the record's current verdict |
| Invoker.CheckData.SetPassed | scoreengine/tasks.py:43-45 | only `passed` changes |
| Invoker.CheckData.AddOutput | scoreengine/tasks.py:47-50 | exactly one line, the decoded and formatted message, is appended and nothing else changes; a message that does not decode or format raises and changes nothing |
| Invoker.CheckData.Export | scoreengine/tasks.py:52-53 | the record itself |
| Utf8.DecodeEncode | scoreengine/tasks.py:48-49 | decoding the UTF-8 encoding of any text gives the text back |
| Utf8.Decode | scoreengine/tasks.py:48-49 | a successful decoding re-encodes to exactly the input bytes, so ill-formed input (which no text encodes to) raises, with a UnicodeDecodeError naming a position inside the input; at most one character per byte; ASCII bytes come out one for one |
| Utf8.EncodeDecodeFrom | scoreengine/tasks.py:48-49 | whatever decodes, from any position, is the encoding of the text it decodes to |
| Utf8.EncodeScalar | scoreengine/tasks.py:48-49 | each well-formed sequence of one to four bytes is the encoding of the character it decodes to |
| Utf8.DecodeFromLength | scoreengine/tasks.py:48-49 | the same length and ASCII facts for decoding from any position |
| Invoker.Render | scoreengine/tasks.py:47-50 | a brace-free text message is appended as it is; bytes that do not decode raise the decoding error before any formatting; bytes that decode to brace-free text are appended as that text |
| PyFormat.Field | scoreengine/tasks.py:50 | `{}` takes the next positional argument and moves the automatic numbering on by one, and raises after a manual field or past the last argument; `{<index>}` takes that argument and makes the numbering manual, and raises after an automatic field or past the last argument; `{<name>}` takes the keyword argument and leaves the numbering alone, raising KeyError when it is missing |
| PyFormat.Format | scoreengine/tasks.py:50 | a brace-free template comes back unchanged, and a lone `}` raises |
| PyFormat.FormatNoBraces | scoreengine/tasks.py:50 | a template without braces formats to itself |
| PyFormat.FormatPositional | scoreengine/tasks.py:50 | literals separated by `{}` fields format to the literals with the arguments in between, in order |
| PyFormat.FormatKeyword | scoreengine/setup.py:27 | every `{name}` field in a template takes the keyword argument's value |
| Invoker.OneFieldRendering | scoreengine/checks/__init__.py:12-13 | a one-field preamble line renders with its value in place |
| Invoker.TwoFieldRendering | scoreengine/checks/__init__.py:21 | `ERROR: {}: {}` renders with the exception's kind and message |
| Invoker.PlainRendering | scoreengine/checks/__init__.py:14 | `OUTPUT:` and `Check successful!` render as themselves |
| Invoker.LogPreamble | scoreengine/checks/__init__.py:12-14 | exactly the three preamble lines are appended, in order |
| Invoker.RunProbeSteps | scoreengine/checks/__init__.py:18 | running a probe's steps on the record matches the step-by-step specification `RunSteps` |
| Invoker.RunStepsAppends | scoreengine/checks/__init__.py:18 | a probe only appends output and sets `passed` |
| Invoker.RunStepsIgnorePassed | scoreengine/checks/__init__.py:17-23 | the probe's output and exception do not depend on the `passed` it starts with |
| Invoker.Invoke | scoreengine/checks/__init__.py:11-25 | the decorated probe leaves the record as the specification `Wrapped` says |
| Invoker.Wrapped | scoreengine/checks/__init__.py:11-25 | the decorated probe passes exactly when the probe returns a truthy value without raising, and then its last line is `Check successful!` |
| Invoker.WrappedStartsWithPreamble | scoreengine/checks/__init__.py:12-14 | the earlier output and then the preamble are a prefix of the final output |
| Invoker.WrappedKeepsFields | scoreengine/checks/__init__.py:11-25 | only `output` and `passed` change |
| Invoker.WrappedPassed | scoreengine/checks/__init__.py:17-23 | the final `passed` holds exactly when the probe returns a truthy value; the value the probe set, or started with, is overridden |
| Invoker.WrappedClosingLines | scoreengine/checks/__init__.py:17-25 | the probe's lines stay; after a raise comes one `ERROR: kind: message` line with `passed` false; after a return comes `Check successful!` exactly when passed |
| Invoker.CheckTask | scoreengine/tasks.py:7-17 | `check_task` gives the lookup failure, or the same record as the decorated probe updated it |
| Invoker.CheckResultShape | scoreengine/tasks.py:8-17 | the task fails exactly when the probe cannot be found; otherwise only output and `passed` change and the preamble follows the earlier output |
| Rounds.PairsShape | scoreengine/runner.py:97-103 | the comprehension yields one pair per team and service: `teams × services` of them, and nothing else |
| Rounds.PairsDistinct | scoreengine/runner.py:97-103 | distinct teams and services give distinct pairs |
| Rounds.RoundPairs | scoreengine/runner.py:95-103 | a round covers every enabled team with every enabled service, once each |
| Rounds.BuildTasks | scoreengine/runner.py:97-103 | task k is `serialize_check` of pair k, team by team |
| Rounds.Shuffle | scoreengine/runner.py:105 | the shuffled list is a permutation of the tasks |
| Rounds.Cap | scoreengine/runner.py:106-107 | `tasks[:max_checks]`: everything without a cap, the first `min(cap, n)` for a cap of zero or more, and the last `-cap` dropped for a negative cap |
| Rounds.ShuffleCapDispatch | scoreengine/runner.py:105-122 | the results are the dispatch of a cut of some permutation of the tasks |
| Rounds.Dispatch | scoreengine/runner.py:114-122 | the loop gives the specification `DispatchAll` |
| Rounds.DispatchAllSucceeds | scoreengine/runner.py:119-122 | dispatch succeeds exactly when every task's `check_task` does |
| Rounds.DispatchAllResults | scoreengine/runner.py:114-122 | a successful dispatch has one result per task, in submission order |
| Rounds.DispatchAllFirstFailure | scoreengine/runner.py:119-122 | a failed dispatch raises the error of the first failing task |
| Rounds.DispatchAllShape | scoreengine/runner.py:114-122 | the three statements above together |
| Rounds.DispatchKeepsIdentity | scoreengine/tasks.py:16-17 | each result keeps its task's team, service, round and official flag |
| Rounds.RowFor | scoreengine/runner.py:140-148 | a check row carries its result's team, service, round and verdict, the time of recording, and the result's lines joined by newlines: empty for no lines, starting with the first line otherwise |
| Rounds.CheckRowsShape | scoreengine/runner.py:137-148 | one check row per official result and no other rows |
| Rounds.RecordRows | scoreengine/runner.py:137-148 | the loop that skips unofficial results gives `CheckRows` |
| Rounds.RecordResults | scoreengine/runner.py:136-157 | the check rows are added and the round row is completed with its finish time; with no round row, `first()` yields None and the attribute write raises |
| Rounds.CompleteRound | scoreengine/runner.py:150-157 | a round row inserted last is completed in place and the check rows are appended |
| Rounds.RunnerRound | scoreengine/runner.py:85-159 | an official round inserts its row (a taken number raises and changes nothing more), then dispatches a capped permutation of all enabled pairs and records the results; a non-official round changes no table |
| Rounds.MasterRound | scoreengine/master.py:61-117 | the master always inserts the round row, dispatches every enabled pair uncapped and unshuffled, then records the results |
| Rounds.SelectTeams | scoreengine/runner.py:175-181 | an empty filter selects every team, else those whose id is listed |
| Rounds.SelectServices | scoreengine/runner.py:167-173 | an empty filter selects every service, else those whose id is listed |
| Rounds.PerformChecks | scoreengine/runner.py:162-186 | a one-off check describes every selected pair for the default round and dispatches them all |
| Rounds.PerformChecksUnofficial | scoreengine/runner.py:185 | one-off checks are unofficial, use round -1, and would record no check row |
| Scheduling.RoundSleepRange | scoreengine/runner.py:26-29 | the range is centred on the duration and is `2 * jitter` wide |
| Scheduling.RandInt | scoreengine/runner.py:77-78 | a sleep lies within the range, both ends included; an empty range raises ValueError |
| Scheduling.SleepError | scoreengine/runner.py:80 | `time.sleep` raises exactly for a negative duration |
| Scheduling.ConsecutiveAppend | scoreengine/runner.py:82 | counting up by one keeps the dispatched rounds consecutive |
| Scheduling.InterruptsShape | scoreengine/runner.py:35-43 | any interrupt sets `no_more_rounds` for good; the process exits on the second interrupt |
| Scheduling.ScoringRoundsAppend | scoreengine/runner.py:67-82 | a scoring cycle adds its round to the scoring rounds, and a traffic cycle adds none |
| Scheduling.Runner.constructor | scoreengine/runner.py:23-33 | the counter starts at `start_round`, the sleep range is built from the duration and jitter, and no stop is requested |
| Scheduling.Runner.Shutdown | scoreengine/runner.py:35-43 | the first call sets `no_more_rounds`, a second one exits, and nothing else changes |
| Scheduling.Runner.ScoringPass | scoreengine/runner.py:68-82 | one scoring pass dispatches the current round, then draws and sleeps a pause: the loop crashes exactly on an empty range or a negative pause, before sleeping and with the stop flags unchanged; otherwise one non-negative sleep is recorded and the interrupts during it update the flags as `shutdown` does; the counter moves on by one exactly when the loop neither crashed nor exited, which an uninterrupted pass over a non-negative range always does |
| Scheduling.Runner.TrafficPass | scoreengine/runner.py:55-65 | one traffic pass dispatches round -1 with the traffic cap and leaves the round counter alone |
| Scheduling.Runner.Run | scoreengine/runner.py:45-82 | the interleaved loops add at most one cycle per step, none once stopping was requested before the run or by an interrupt between passes, and keep the invariant (consecutive rounds from the start, sleeps in range); with no interrupts, a non-negative sleep range and traffic pause, every step starts its cycle and both loops are still running |
| Scheduling.Master.constructor | scoreengine/master.py:20-30 | as for the runner |
| Scheduling.Master.Shutdown | scoreengine/master.py:32-40 | as for the runner |
| Scheduling.Master.Pass | scoreengine/master.py:43-58 | as `Runner.ScoringPass`: the crash is exactly the failed draw or negative pause, the interrupts during the sleep update the flags, and an uninterrupted tick over a non-negative range counts its round |
| Scheduling.Master.Run | scoreengine/master.py:42-58 | no round is dispatched once stopping was requested; at most `PassesRun` rounds, one per tick up to the first interrupted one; exactly that many, with the stop flag set exactly when some tick was interrupted, when the sleep range is non-negative; the counter is one past the last counted round |
| Scheduling.PassesRunShape | scoreengine/master.py:43-58 | at most one tick per entry, every tick when none is interrupted, and an early stop comes right after an interrupted tick |
| Seeding.PlanTeamsShape | scoreengine/setup.py:10-15 | `maximum - minimum + 1` teams named `Team i` in order, all enabled and with distinct names and ids; exactly the one numbered `maximum` is the check team |
| Text.IntToStringInjective | scoreengine/setup.py:14 | different numbers give different decimal strings, so team names are unique |
| Seeding.SplitCheck | scoreengine/setup.py:18 | the check splits exactly when it holds a `.`; the group holds no `.`, and group, `.` and function rejoin to the check; otherwise the unpacking raises |
| Seeding.TeamPlaceholder | scoreengine/setup.py:27 | every `{team}` in a value is replaced by the team number |
| Seeding.DatumRowsShape | scoreengine/setup.py:22-34 | one team's rows succeed exactly when every value formats; there is one row per datum, with order equal to the datum's index |
| Seeding.ServiceRowsCount | scoreengine/setup.py:22-34 | a service gets `teams × data` rows, all with its id and a valid team id |
| Seeding.ServiceRowsComplete | scoreengine/setup.py:22-34 | there is a row for every team and datum, with that team's formatted value |
| Seeding.ServiceRowsUnique | scoreengine/setup.py:22-34 | no two rows share a team, service and order |
| Seeding.PlanServicesShape | scoreengine/setup.py:17-20 | one service per configured service, in order, with ids from 1, its name, enabled, and its check split at the first `.` |
| Seeding.PlanServicesBounds | scoreengine/setup.py:17-34 | every row names a planned service and a planned team |
| Seeding.PlanServicesComplete | scoreengine/setup.py:17-34 | every service, team and datum has its row |
| Seeding.PlanServicesUnique | scoreengine/setup.py:17-34 | no two rows share a slot |
| Seeding.TeamRows | scoreengine/setup.py:33 | the datum loop gives `DatumRows` |
| Seeding.RowsOfService | scoreengine/setup.py:22-34 | the team and datum loops give `ServiceRows` |
| Seeding.AddTeams | scoreengine/setup.py:12-15 | the team loop gives the planned teams |
| Seeding.AddServices | scoreengine/setup.py:17-34 | the service loop gives the planned services and rows, or the first error |
| Seeding.Seed | scoreengine/setup.py:4-34 | seeding succeeds exactly when the plan does: the tables then hold the plan; otherwise they are left recreated and empty and the plan's error is raised |
| Seeding.Plan | scoreengine/setup.py:4-34 | seeding refuses `minimum >= maximum` with the failed assertion first; a successful plan has `maximum - minimum + 1` teams and one uniquely named service per configured service |
| Seeding.PlanShape | scoreengine/setup.py:10-34 | a successful seeding has `minimum < maximum`, the planned teams, unique service names, every service with its split check, and exactly one row per service, team and datum |
| Cli.RunStartRound | scoreengine/cli.py:64-69 | resuming over a non-empty table starts one past the largest round; otherwise the requested round |
| Cli.ResumeStartsAfterRecorded | scoreengine/cli.py:56 | a resumed run starts at 1 or later and above every recorded round |
| Cli.PrepareRun | scoreengine/cli.py:60-69 | `--reset` deletes the round rows only, and does so before `--resume` reads the largest number |
| Cli.RunCommand | scoreengine/cli.py:56-71 | a start round below 1 is refused with no change; otherwise the runner starts at the chosen round; the tables are those the command itself leaves, before any started round writes (see "## Left out") |
| Cli.CheckCommand | scoreengine/cli.py:84-86 | the filters go to `perform_checks` unchanged; with no filters, every team is checked against every service, unofficially |
| ScoreEngineCli.ValidateCheckArgs | scoreenginecli.py:67-73 | the arguments pass exactly when either `--check-all` or some ids are given, but not both, with the message for each refusal |
| ScoreEngineCli.StartRound | scoreenginecli.py:91-98 | resuming gives the largest round plus 1, or 1 on an empty table; otherwise a given non-zero `--start-round`, else 1 |
| ScoreEngineCli.ResumeSkipsRecordedRounds | scoreenginecli.py:92-96 | a resumed run starts above every recorded round, and at 1 on an empty table |
| ScoreEngineCli.StartRoundsAgree | scoreenginecli.py:90-98 | both command lines choose the same start round, except when resuming over an empty table with a requested round other than 1 |
| ScoreEngineCli.WithIds | scoreenginecli.py:47-60 | with no id list every row is selected, else those whose id is listed |
| ScoreEngineCli.CheckMode | scoreenginecli.py:44-64 | the dry-run check raises TypeError exactly when some selected team meets some selected service |
| ScoreEngineCli.Launch | scoreenginecli.py:81-105 | `--reset` seeds first, then the chosen mode runs: `--setup` seeds; `--check` validates and then checks; `--master` or `--stand-alone` runs a master from the chosen round, through the task queue only for `--master`; `--worker` starts the worker; anything else raises NotImplementedError; the tables are those the launcher itself leaves, before any started round writes (see "## Left out") |

## Left out

- Cli.RunCommand: its table clauses describe what the command itself
  writes (the `--reset` deletion) before the runner starts. The round and
  check rows that each started scoring cycle's thread writes are modelled by
  `Rounds.RunnerRound`, applied to the cycles the runner records, and are
  not folded into this method's final state.
- ScoreEngineCli.Launch: likewise, its table clauses describe what the
  launcher itself writes (seeding) before the master starts. The round and
  check rows of each started round are modelled by `Rounds.MasterRound`,
  applied to the rounds the master records, and are not folded into this
  method's final state.
- Threads and concurrency. Each loop pass records the round or traffic cycle
  it hands to a new thread, and `Rounds` models what that thread does. The
  model does not interleave round threads with each other or with the loops,
  so overlapping rounds and the resume race they allow are not modelled.
- The dispatch backends. The celery `group`, the thread pool and
  `soft_time_limit` are not modelled: both backends give one result per task
  in order, and dispatch is that function. A queue or pool failure is not
  modelled.
- Signals and `sys.exit`. An interrupt is an explicit `Shutdown` call or
  step; the exit is the `exited` flag.
- `time.sleep` durations are recorded, not waited. The clock and the database
  server defaults (`utcnow`, `current_timestamp`) are `Timestamp` parameters.
- SQLAlchemy. Queries, relationships and autoincrement are not modelled. The
  tables are sequences in `Db`, and a team or service gets id `k + 1` in
  insertion order. A SQL error other than the unique constraints is not
  modelled.
- Logging and console output: `logger`, `print`, `pprint`, `click.echo`, and
  the `print(max_round)` in `run`.
- The probes under `scoreengine/checks/` other than the decorator. A probe is
  an abstract list of steps and an outcome, and the services it contacts are
  folded into it. A call of a method `CheckData` lacks (`addOutput`,
  `setPassed`) is a step that raises AttributeError.
- Configuration loading and the celery application, in
  `scoreengine/__init__.py` and the packaging `setup.py`. The configuration
  is a parameter.
- The `db init`, `db list-services`, `db list-teams` and `worker` commands of
  `cli.py`. `init` is the seeding model; the others only print or start
  celery. The launcher's `--worker` mode is only the `WorkerStarted`
  outcome.
- argparse and click parsing: mutual exclusion of the mode flags, type
  conversion, and usage text. A `parser.error` is a `SystemExit` outcome
  carrying the message, and click's range check is `StartRoundOutOfRange`.
- `init_db_from_config` (scoreengine/utils.py:73-109) and `setup`
  (scoreenginecli.py:11-41) repeat `init_from_config` line for line, so
  `Seeding.Seed` models all three.
- PyFormat.Field: only `{}`, `{<number>}`, `{<name>}`, `{{` and `}}` are
  modelled. Conversions (`!r`), format specs, attribute and index lookups in
  field names, and non-string arguments (`str()` of a value) are not.
- Utf8.DecodeEncode: `bytes.decode` is modelled only for the UTF-8 structure
  of code points. Overlong forms and surrogates are refused. The error
  message names the first offending position, with less detail than
  CPython's.
- Scheduling.Runner.Run: the number of cycles is exact only for a run
  without interrupts or crashes. With interrupts it is bounded above, and the
  exact cycle list of an interleaving is stated pass by pass (`ScoringPass`,
  `TrafficPass`), not for the whole run. A scoring step skipped because the
  scoring loop has already crashed delivers no interrupts.
- Scheduling.Master.Run: the round count is exact only for a sleep range that
  can neither be empty nor go below zero; otherwise, when a tick may crash,
  only the upper bound `PassesRun` is stated.
- Probe behaviour: a probe's run is a function of its configuration alone.
  The live services it contacts, and so any difference between two runs of
  the same check, are not modelled; no property relies on two runs agreeing.
- Integer widths: Python integers are unbounded, and so are the model's.
