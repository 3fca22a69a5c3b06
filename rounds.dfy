/**
 * One scoring round (`schedule_round_checks` of the stand-alone runner and of
 * the older master) and the one-off check command (`perform_checks`): the task
 * list over every team and service, its shuffle and cap, the dispatch of the
 * tasks, and the rows recorded for an official round.
 */
module Rounds {
  import opened Wrappers
  import opened Text
  import opened Models
  import opened Database
  import opened Credentials
  import opened Invoker

  /** No element occurs twice. */
  predicate Distinct<T(==)>(s: seq<T>)
  {
    forall i, j :: 0 <= i < j < |s| ==> s[i] != s[j]
  }

  /** The pairs of one team with every service, in service order. */
  function Row(team: Team, services: seq<Service>): (r: seq<(Team, Service)>)
    ensures |r| == |services| && forall j :: 0 <= j < |services| ==> r[j] == (team, services[j])
  {
    seq(|services|, j requires 0 <= j < |services| => (team, services[j]))
  }

  /** `for team in teams for service in services`: the cross product, team by team. */
  function Pairs(teams: seq<Team>, services: seq<Service>): seq<(Team, Service)>
  {
    if teams == [] then [] else Pairs(teams[..|teams| - 1], services) + Row(teams[|teams| - 1], services)
  }

  /** The cross product holds every (team, service) pair and nothing else, |teams| × |services| of them. */
  lemma {:induction false} PairsShape(teams: seq<Team>, services: seq<Service>)
    ensures |Pairs(teams, services)| == |teams| * |services|
    ensures forall p :: p in Pairs(teams, services) <==> p.0 in teams && p.1 in services
  {
    if teams != [] {
      var init := teams[..|teams| - 1];
      PairsShape(init, services);
      assert teams == init + [teams[|teams| - 1]];
      assert |teams| * |services| == |init| * |services| + |services|;
    }
  }

  /** Without repeated teams or services, no pair occurs twice. */
  lemma {:induction false} PairsDistinct(teams: seq<Team>, services: seq<Service>)
    requires Distinct(teams) && Distinct(services)
    ensures Distinct(Pairs(teams, services))
  {
    if teams != [] {
      var init := teams[..|teams| - 1];
      var last := teams[|teams| - 1];
      PairsDistinct(init, services);
      PairsShape(init, services);
      var p := Pairs(init, services);
      var r := Row(last, services);
      assert last !in init;
      forall i, j | 0 <= i < j < |p + r|
        ensures (p + r)[i] != (p + r)[j]
      {
        if j >= |p| && i < |p| {
          assert (p + r)[j] == r[j - |p|] && r[j - |p|].0 == last;
          assert (p + r)[i] in p;
        }
      }
    }
  }

  lemma {:induction false} EnabledTeamsDistinct(teams: seq<Team>)
    requires UniqueTeams(teams)
    ensures Distinct(EnabledTeamsIn(teams))
  {
    if teams != [] {
      EnabledTeamsDistinct(teams[1..]);
      assert teams[0] !in teams[1..];
    }
  }

  lemma {:induction false} EnabledServicesDistinct(services: seq<Service>)
    requires UniqueServices(services)
    ensures Distinct(EnabledServicesIn(services))
  {
    if services != [] {
      EnabledServicesDistinct(services[1..]);
      assert services[0] !in services[1..];
    }
  }

  /**
   * Before the shuffle there is exactly one task per pair of an enabled team
   * and an enabled service: every such pair occurs, no other does, and none
   * occurs twice.
   */
  lemma RoundPairs(teams: seq<Team>, services: seq<Service>)
    requires UniqueTeams(teams) && UniqueServices(services)
    ensures var p := Pairs(EnabledTeamsIn(teams), EnabledServicesIn(services));
      (forall q :: q in p <==> q.0 in teams && q.0.enabled && q.1 in services && q.1.enabled) &&
      Distinct(p) &&
      |p| == |EnabledTeamsIn(teams)| * |EnabledServicesIn(services)|
  {
    EnabledTeamsDistinct(teams);
    EnabledServicesDistinct(services);
    PairsShape(EnabledTeamsIn(teams), EnabledServicesIn(services));
    PairsDistinct(EnabledTeamsIn(teams), EnabledServicesIn(services));
  }

  /**
   * `tasks[k]` is the description `serialize_check` gives of the k-th pair,
   * with `picks[k]` the values it chose before splitting `USERPASS`.
   */
  ghost predicate Describes(rows: seq<TeamService>, pairs: seq<(Team, Service)>, roundNumber: int,
                            tasks: seq<Task>, picks: seq<Config>)
  {
    |tasks| == |pairs| && |picks| == |pairs| &&
    forall k :: 0 <= k < |pairs| ==>
      IsChoice(PairRows(rows, pairs[k].0.id, pairs[k].1.id), picks[k]) &&
      tasks[k] == Describe(pairs[k].0, pairs[k].1, roundNumber, SplitUserPass(picks[k]))
  }

  /** Describing one more pair extends the description of the pairs before it. */
  lemma DescribesAppend(rows: seq<TeamService>, pairs: seq<(Team, Service)>, pair: (Team, Service), roundNumber: int,
                        tasks: seq<Task>, picks: seq<Config>, t: Task, c: Config)
    requires Describes(rows, pairs, roundNumber, tasks, picks)
    requires IsChoice(PairRows(rows, pair.0.id, pair.1.id), c)
    requires t == Describe(pair.0, pair.1, roundNumber, SplitUserPass(c))
    ensures Describes(rows, pairs + [pair], roundNumber, tasks + [t], picks + [c])
  {
  }

  /**
   * The task list comprehension: one `serialize_check` per team and service,
   * team by team.
   */
  method BuildTasks(db: Db, teams: seq<Team>, services: seq<Service>, roundNumber: int)
    returns (tasks: seq<Task>, ghost picks: seq<Config>)
    ensures Describes(db.teamServices, Pairs(teams, services), roundNumber, tasks, picks)
  {
    tasks, picks := [], [];
    var i := 0;
    while i < |teams|
      invariant 0 <= i <= |teams|
      invariant Describes(db.teamServices, Pairs(teams[..i], services), roundNumber, tasks, picks)
    {
      assert teams[..i + 1][..i] == teams[..i];
      var j := 0;
      while j < |services|
        invariant 0 <= j <= |services|
        invariant Describes(db.teamServices, Pairs(teams[..i], services) + Row(teams[i], services[..j]), roundNumber, tasks, picks)
      {
        assert Row(teams[i], services[..j + 1]) == Row(teams[i], services[..j]) + [(teams[i], services[j])];
        var t;
        ghost var c;
        t, c := SerializeCheck(db, teams[i], services[j], roundNumber);
        DescribesAppend(db.teamServices, Pairs(teams[..i], services) + Row(teams[i], services[..j]),
                        (teams[i], services[j]), roundNumber, tasks, picks, t, c);
        assert Pairs(teams[..i], services) + Row(teams[i], services[..j + 1])
            == Pairs(teams[..i], services) + Row(teams[i], services[..j]) + [(teams[i], services[j])];
        tasks, picks := tasks + [t], picks + [c];
        j := j + 1;
      }
      assert services[..j] == services;
      i := i + 1;
    }
    assert teams[..i] == teams;
  }

  /** `random.shuffle(tasks)`: swaps from the back, each with a position drawn at or before it. */
  method Shuffle(a: array<Task>)
    modifies a
    ensures multiset(a[..]) == multiset(old(a[..]))
  {
    var i := a.Length - 1;
    while i > 0
      invariant -1 <= i < a.Length
      invariant multiset(a[..]) == multiset(old(a[..]))
    {
      var j :| 0 <= j <= i;
      a[i], a[j] := a[j], a[i];
      i := i - 1;
    }
  }

  /**
   * `tasks[:max_checks]`: everything when there is no cap; the first
   * `min(cap, n)` for a cap of zero or more; and, as for any Python slice, a
   * negative cap drops that many from the end.
   */
  function Cap<T>(tasks: seq<T>, maxChecks: Option<int>): (r: seq<T>)
    ensures r <= tasks
    ensures maxChecks.None? ==> r == tasks
    ensures maxChecks.Some? && maxChecks.value >= 0 ==>
      |r| == if maxChecks.value < |tasks| then maxChecks.value else |tasks|
    ensures maxChecks.Some? && maxChecks.value < 0 ==>
      |r| == if |tasks| + maxChecks.value > 0 then |tasks| + maxChecks.value else 0
  {
    match maxChecks
    case None => tasks
    case Some(c) =>
      if c >= 0 then tasks[..if c < |tasks| then c else |tasks|]
      else tasks[..if |tasks| + c > 0 then |tasks| + c else 0]
  }

  /**
   * The results of a batch of tasks, as either backend hands them back: one
   * per task in submission order, or the first failure in that order.
   */
  function DispatchAll(registry: Registry, tasks: seq<Task>): Result<seq<Task>, Exception>
  {
    if tasks == [] then Success([])
    else
      match DispatchAll(registry, tasks[..|tasks| - 1])
      case Failure(e) => Failure(e)
      case Success(rs) =>
        match CheckResult(registry, tasks[|tasks| - 1])
        case Failure(e) => Failure(e)
        case Success(r) => Success(rs + [r])
  }

  /**
   * Exactly one result per task, in order, when every task finds its probe;
   * otherwise the lookup error of the first task that does not.
   */
  lemma {:induction false} DispatchAllShape(registry: Registry, tasks: seq<Task>)
    ensures DispatchAll(registry, tasks).Success? <==>
      forall k :: 0 <= k < |tasks| ==> CheckResult(registry, tasks[k]).Success?
    ensures DispatchAll(registry, tasks).Success? ==>
      |DispatchAll(registry, tasks).value| == |tasks| &&
      forall k :: 0 <= k < |tasks| ==> DispatchAll(registry, tasks).value[k] == CheckResult(registry, tasks[k]).value
    ensures DispatchAll(registry, tasks).Failure? ==>
      exists k :: 0 <= k < |tasks| && CheckResult(registry, tasks[k]) == Failure(DispatchAll(registry, tasks).error) &&
        forall m :: 0 <= m < k ==> CheckResult(registry, tasks[m]).Success?
  {
    DispatchAllSucceeds(registry, tasks);
    DispatchAllResults(registry, tasks);
    DispatchAllFirstFailure(registry, tasks);
  }

  /** The batch succeeds exactly when every task finds its probe. */
  lemma {:induction false} DispatchAllSucceeds(registry: Registry, tasks: seq<Task>)
    ensures DispatchAll(registry, tasks).Success? <==>
      forall k :: 0 <= k < |tasks| ==> CheckResult(registry, tasks[k]).Success?
  {
    if tasks != [] {
      var init := tasks[..|tasks| - 1];
      DispatchAllSucceeds(registry, init);
      assert forall k :: 0 <= k < |init| ==> init[k] == tasks[k];
    }
  }

  /** A successful batch holds one result per task, in order. */
  lemma {:induction false} DispatchAllResults(registry: Registry, tasks: seq<Task>)
    ensures DispatchAll(registry, tasks).Success? ==>
      |DispatchAll(registry, tasks).value| == |tasks| &&
      forall k :: 0 <= k < |tasks| ==>
        CheckResult(registry, tasks[k]).Success? && DispatchAll(registry, tasks).value[k] == CheckResult(registry, tasks[k]).value
  {
    if tasks != [] {
      var init := tasks[..|tasks| - 1];
      DispatchAllResults(registry, init);
      assert forall k :: 0 <= k < |init| ==> init[k] == tasks[k];
    }
  }

  /** A failed batch carries the error of the first task whose probe is missing. */
  lemma {:induction false} DispatchAllFirstFailure(registry: Registry, tasks: seq<Task>)
    ensures DispatchAll(registry, tasks).Failure? ==>
      exists k :: 0 <= k < |tasks| && CheckResult(registry, tasks[k]) == Failure(DispatchAll(registry, tasks).error) &&
        forall m :: 0 <= m < k ==> CheckResult(registry, tasks[m]).Success?
  {
    if tasks != [] {
      var init := tasks[..|tasks| - 1];
      DispatchAllFirstFailure(registry, init);
      DispatchAllSucceeds(registry, init);
      assert forall k :: 0 <= k < |init| ==> init[k] == tasks[k];
    }
  }

  /**
   * Submits every task and collects the results in submission order, as the
   * task-queue group and the local thread pool both do; a failed task's
   * exception is re-raised when its result is collected.
   */
  method Dispatch(registry: Registry, tasks: seq<Task>) returns (r: Result<seq<Task>, Exception>)
    ensures r == DispatchAll(registry, tasks)
  {
    var results: seq<Task> := [];
    var i := 0;
    while i < |tasks|
      invariant 0 <= i <= |tasks|
      invariant DispatchAll(registry, tasks[..i]) == Success(results)
    {
      assert tasks[..i + 1][..i] == tasks[..i];
      var one := CheckTask(registry, tasks[i]);
      if one.Failure? {
        FailureStays(registry, tasks, i + 1);
        return Failure(one.error);
      }
      results := results + [one.value];
      i := i + 1;
    }
    assert tasks[..i] == tasks;
    r := Success(results);
  }

  /** Once a task has failed, the batch fails with that error whatever follows. */
  lemma {:induction false} FailureStays(registry: Registry, tasks: seq<Task>, i: nat)
    requires i <= |tasks| && DispatchAll(registry, tasks[..i]).Failure?
    ensures DispatchAll(registry, tasks) == DispatchAll(registry, tasks[..i])
    decreases |tasks| - i
  {
    if i < |tasks| {
      assert tasks[..i + 1][..i] == tasks[..i];
      FailureStays(registry, tasks, i + 1);
    } else {
      assert tasks[..i] == tasks;
    }
  }

  /** A result keeps the team, service, round and `official` flag of the task it came from. */
  lemma DispatchKeepsIdentity(registry: Registry, tasks: seq<Task>)
    requires DispatchAll(registry, tasks).Success?
    ensures |DispatchAll(registry, tasks).value| == |tasks|
    ensures forall k :: 0 <= k < |tasks| ==>
      var r := DispatchAll(registry, tasks).value[k];
      r.teamId == tasks[k].teamId && r.serviceId == tasks[k].serviceId &&
      r.roundNumber == tasks[k].roundNumber && r.official == tasks[k].official
  {
    DispatchAllShape(registry, tasks);
    forall k | 0 <= k < |tasks|
      ensures var r := DispatchAll(registry, tasks).value[k];
        r.teamId == tasks[k].teamId && r.serviceId == tasks[k].serviceId &&
        r.roundNumber == tasks[k].roundNumber && r.official == tasks[k].official
    {
      CheckResultShape(registry, tasks[k]);
    }
  }

  /** The check row recorded for one result. */
  function RowFor(result: Task, now: Timestamp): (c: Check)
    ensures c.teamId == result.teamId && c.serviceId == result.serviceId && c.round == result.roundNumber
    ensures c.time == now && c.passed == result.passed
    ensures result.output == [] ==> c.output == []
    ensures result.output != [] ==> result.output[0] <= c.output
  {
    Check(result.teamId, result.serviceId, result.roundNumber, now, result.passed, Join(result.output, "\n"))
  }

  /** The check rows of a round: one per result whose `official` flag is set, in order. */
  function CheckRows(results: seq<Task>, now: Timestamp): seq<Check>
  {
    if results == [] then []
    else
      var last := results[|results| - 1];
      CheckRows(results[..|results| - 1], now) + (if last.official then [RowFor(last, now)] else [])
  }

  /** How many results have `official` set. */
  function OfficialCount(results: seq<Task>): nat
  {
    if results == [] then 0
    else OfficialCount(results[..|results| - 1]) + (if results[|results| - 1].official then 1 else 0)
  }

  /**
   * The rows are exactly those of the official results: one each, and each
   * carrying its result's team, service, round, verdict and joined output.
   */
  lemma {:induction false} CheckRowsShape(results: seq<Task>, now: Timestamp)
    ensures |CheckRows(results, now)| == OfficialCount(results)
    ensures forall k :: 0 <= k < |results| && results[k].official ==> RowFor(results[k], now) in CheckRows(results, now)
    ensures forall c :: c in CheckRows(results, now) ==> exists k :: 0 <= k < |results| && results[k].official && c == RowFor(results[k], now)
  {
    if results != [] {
      var init := results[..|results| - 1];
      CheckRowsShape(init, now);
      assert forall k :: 0 <= k < |init| ==> init[k] == results[k];
    }
  }

  /** The loop that adds a check row per official result, skipping the others. */
  method RecordRows(results: seq<Task>, now: Timestamp) returns (rows: seq<Check>)
    ensures rows == CheckRows(results, now)
  {
    rows := [];
    var i := 0;
    while i < |results|
      invariant 0 <= i <= |results|
      invariant rows == CheckRows(results[..i], now)
    {
      assert results[..i + 1][..i] == results[..i];
      if results[i].official {
        rows := rows + [RowFor(results[i], now)];
      }
      i := i + 1;
    }
    assert results[..i] == results;
  }

  /** The error raised when the round row to complete is not found. */
  const NoRoundRow: Exception := Exception("AttributeError", "'NoneType' object has no attribute 'completed'")

  /**
   * The second scope of a round: adds the check rows, then marks the round
   * row completed with its finish time. Without a round row the attribute
   * access fails and nothing is committed.
   */
  method RecordResults(db: Db, roundNumber: int, results: seq<Task>, now: Timestamp) returns (err: Option<Exception>)
    requires db.Valid()
    modifies db
    ensures db.Valid()
    ensures old(db.FindRound(roundNumber)).None? ==> err == Some(NoRoundRow) && unchanged(db)
    ensures old(db.FindRound(roundNumber)).Some? ==>
      var i := old(db.FindRound(roundNumber)).value;
      err.None? && db.checks == old(db.checks) + CheckRows(results, now) &&
      db.rounds == old(db.rounds)[i := old(db.rounds)[i].(completed := true, finish := Some(now))] &&
      db.teams == old(db.teams) && db.services == old(db.services) && db.teamServices == old(db.teamServices)
  {
    var rows := RecordRows(results, now);
    var found := db.FindRound(roundNumber);
    if found.None? {
      return Some(NoRoundRow);
    }
    db.CommitRound(found.value, rows, now);
    err := None;
  }

  /** Under the unique constraint, a round number held by the last row is found at that row. */
  lemma LastRoundFound(db: Db, roundNumber: int)
    requires db.Valid() && |db.rounds| > 0 && db.rounds[|db.rounds| - 1].number == roundNumber
    ensures db.FindRound(roundNumber) == Some(|db.rounds| - 1)
  {
    var f := db.FindRound(roundNumber);
    assert f.Some?;
    assert db.rounds[f.value].number == db.rounds[|db.rounds| - 1].number;
  }

  /** The round row an official round leaves behind once it has been recorded. */
  function CompletedRound(number: int, start: Timestamp, finish: Timestamp): Round
  {
    NewRound(number, start).(completed := true, finish := Some(finish))
  }

  /**
   * `Runner.schedule_round_checks(current_round, use_task_queue, max_checks)`.
   * A positive round is official: its round row is inserted and committed
   * first (a duplicate number raises and ends the round), and once every
   * result is in, the check rows are added and the row is completed. Any
   * other round number (traffic uses -1) touches no table. The task list is
   * shuffled and then capped. Both dispatch backends give the same results,
   * so the backend is not a parameter.
   */
  method RunnerRound(db: Db, registry: Registry, roundNumber: int, maxChecks: Option<int>,
                     start: Timestamp, finish: Timestamp)
    returns (err: Option<Exception>, ghost built: seq<Task>, ghost picks: seq<Config>,
             ghost shuffled: seq<Task>, ghost sent: seq<Task>)
    requires db.Valid()
    modifies db
    ensures db.Valid()
    ensures roundNumber <= 0 ==> unchanged(db)
    ensures db.teams == old(db.teams) && db.services == old(db.services) && db.teamServices == old(db.teamServices)
    ensures roundNumber > 0 && old(db.FindRound(roundNumber)).Some? ==>
      err.Some? && IsDatabaseError(err.value) && db.rounds == old(db.rounds) && db.checks == old(db.checks)
    ensures (roundNumber <= 0 || old(db.FindRound(roundNumber)).None?) ==>
      Describes(old(db.teamServices), Pairs(old(db.EnabledTeams()), old(db.EnabledServices())), roundNumber, built, picks) &&
      multiset(shuffled) == multiset(built) && sent == Cap(shuffled, maxChecks) &&
      (err.None? <==> DispatchAll(registry, sent).Success?) &&
      (err.Some? ==> err.value == DispatchAll(registry, sent).error)
    ensures roundNumber > 0 && old(db.FindRound(roundNumber)).None? && err.Some? ==>
      db.rounds == old(db.rounds) + [NewRound(roundNumber, start)] && db.checks == old(db.checks)
    ensures roundNumber > 0 && err.None? ==>
      db.rounds == old(db.rounds) + [CompletedRound(roundNumber, start, finish)] &&
      db.checks == old(db.checks) + CheckRows(DispatchAll(registry, sent).value, finish)
  {
    var official := roundNumber > 0;
    built, picks, shuffled, sent := [], [], [], [];
    if official {
      err := db.AddRound(roundNumber, start);
      if err.Some? {
        return;
      }
    }
    var tasks;
    tasks, picks := BuildTasks(db, db.EnabledTeams(), db.EnabledServices(), roundNumber);
    built := tasks;

    var results, s, c := ShuffleCapDispatch(registry, tasks, maxChecks);
    shuffled, sent := s, c;
    if results.Failure? {
      err := Some(results.error);
      return;
    }
    err := None;
    if official {
      err := CompleteRound(db, roundNumber, results.value, start, finish, old(db.rounds));
    }
  }

  /**
   * The end of an official round whose row was inserted last: the results
   * become check rows and the row is completed.
   */
  method CompleteRound(db: Db, roundNumber: int, results: seq<Task>, start: Timestamp, finish: Timestamp,
                       ghost before: seq<Round>)
    returns (err: Option<Exception>)
    requires db.Valid() && db.rounds == before + [NewRound(roundNumber, start)]
    modifies db
    ensures db.Valid() && err.None?
    ensures db.rounds == before + [CompletedRound(roundNumber, start, finish)]
    ensures db.checks == old(db.checks) + CheckRows(results, finish)
    ensures db.teams == old(db.teams) && db.services == old(db.services) && db.teamServices == old(db.teamServices)
  {
    LastRoundFound(db, roundNumber);
    err := RecordResults(db, roundNumber, results, finish);
    assert (before + [NewRound(roundNumber, start)])[|before| := CompletedRound(roundNumber, start, finish)]
        == before + [CompletedRound(roundNumber, start, finish)];
  }

  /**
   * The runner's task list after it is built: shuffled in place, cut to
   * `max_checks`, then dispatched.
   */
  method ShuffleCapDispatch(registry: Registry, tasks: seq<Task>, maxChecks: Option<int>)
    returns (results: Result<seq<Task>, Exception>, ghost shuffled: seq<Task>, ghost sent: seq<Task>)
    ensures multiset(shuffled) == multiset(tasks) && sent == Cap(shuffled, maxChecks)
    ensures results == DispatchAll(registry, sent)
  {
    var a := new Task[|tasks|](i requires 0 <= i < |tasks| => tasks[i]);
    assert a[..] == tasks;
    Shuffle(a);
    shuffled := a[..];
    var capped := Cap(a[..], maxChecks);
    sent := capped;
    results := Dispatch(registry, capped);
  }

  /**
   * `Master.schedule_round_checks(current_round, use_task_queue)`: the round
   * row is inserted whatever the sign of the number, every enabled team is
   * paired with every enabled service with no shuffle and no cap, and the
   * round row is completed after the official results are recorded.
   */
  method MasterRound(db: Db, registry: Registry, roundNumber: int, start: Timestamp, finish: Timestamp)
    returns (err: Option<Exception>, ghost built: seq<Task>, ghost picks: seq<Config>)
    requires db.Valid()
    modifies db
    ensures db.Valid()
    ensures db.teams == old(db.teams) && db.services == old(db.services) && db.teamServices == old(db.teamServices)
    ensures old(db.FindRound(roundNumber)).Some? ==>
      err.Some? && IsDatabaseError(err.value) && db.rounds == old(db.rounds) && db.checks == old(db.checks)
    ensures old(db.FindRound(roundNumber)).None? ==>
      Describes(old(db.teamServices), Pairs(old(db.EnabledTeams()), old(db.EnabledServices())), roundNumber, built, picks) &&
      (err.None? <==> DispatchAll(registry, built).Success?) &&
      (err.Some? ==> err.value == DispatchAll(registry, built).error &&
                     db.rounds == old(db.rounds) + [NewRound(roundNumber, start)] && db.checks == old(db.checks)) &&
      (err.None? ==> db.rounds == old(db.rounds) + [CompletedRound(roundNumber, start, finish)] &&
                     db.checks == old(db.checks) + CheckRows(DispatchAll(registry, built).value, finish))
  {
    built, picks := [], [];
    err := db.AddRound(roundNumber, start);
    if err.Some? {
      return;
    }
    var tasks;
    tasks, picks := BuildTasks(db, db.EnabledTeams(), db.EnabledServices(), roundNumber);
    built := tasks;
    var results := Dispatch(registry, tasks);
    if results.Failure? {
      err := Some(results.error);
      return;
    }
    err := CompleteRound(db, roundNumber, results.value, start, finish, old(db.rounds));
  }

  /** The teams a `perform_checks` call covers: all of them for an empty filter, else those whose id is listed. */
  function SelectTeams(teams: seq<Team>, ids: seq<int>): (r: seq<Team>)
    ensures forall t :: t in r <==> t in teams && (ids == [] || t.id in ids)
  {
    if ids == [] then teams
    else if teams == [] then []
    else (if teams[0].id in ids then [teams[0]] else []) + SelectTeams(teams[1..], ids)
  }

  /** The services a `perform_checks` call covers: all of them for an empty filter, else those whose id is listed. */
  function SelectServices(services: seq<Service>, ids: seq<int>): (r: seq<Service>)
    ensures forall s :: s in r <==> s in services && (ids == [] || s.id in ids)
  {
    if ids == [] then services
    else if services == [] then []
    else (if services[0].id in ids then [services[0]] else []) + SelectServices(services[1..], ids)
  }

  /**
   * `perform_checks(service_ids, team_ids)`: a synchronous, unofficial check
   * (round -1) of every selected team against every selected service, enabled
   * or not, run in order; the first failed probe lookup ends it. Nothing is
   * written to the database.
   */
  method PerformChecks(db: Db, registry: Registry, serviceIds: seq<int>, teamIds: seq<int>)
    returns (r: Result<seq<Task>, Exception>, ghost built: seq<Task>, ghost picks: seq<Config>)
    ensures Describes(db.teamServices, Pairs(SelectTeams(db.teams, teamIds), SelectServices(db.services, serviceIds)),
                      DefaultRound, built, picks)
    ensures r == DispatchAll(registry, built)
  {
    var services := SelectServices(db.services, serviceIds);
    var teams := SelectTeams(db.teams, teamIds);
    var tasks;
    tasks, picks := BuildTasks(db, teams, services, DefaultRound);
    built := tasks;
    r := Dispatch(registry, tasks);
  }

  /** The one-off check is never official, so none of its results would be recorded. */
  lemma PerformChecksUnofficial(rows: seq<TeamService>, pairs: seq<(Team, Service)>, built: seq<Task>, picks: seq<Config>,
                                registry: Registry)
    requires Describes(rows, pairs, DefaultRound, built, picks)
    ensures forall k :: 0 <= k < |built| ==> !built[k].official && built[k].roundNumber == DefaultRound
    ensures DispatchAll(registry, built).Success? ==> CheckRows(DispatchAll(registry, built).value, 0) == []
  {
    if DispatchAll(registry, built).Success? {
      DispatchKeepsIdentity(registry, built);
      DispatchAllShape(registry, built);
      var results := DispatchAll(registry, built).value;
      CheckRowsShape(results, 0);
      if CheckRows(results, 0) != [] {
        var c := CheckRows(results, 0)[0];
        assert c in CheckRows(results, 0);
      }
    }
  }
}
