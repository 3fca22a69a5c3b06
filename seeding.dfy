/**
 * Seeding the exercise from its configuration (`init_db_from_config`, and its
 * copies `init_from_config` and the command-line `setup`): every table is
 * recreated, teams `minimum..maximum` are added with the last one as the
 * check team, and each configured service is added with one configuration
 * row per team and datum.
 */
module Seeding {
  import opened Wrappers
  import opened Text
  import opened PyFormat
  import opened Models
  import opened Database

  /** One configuration datum of a service; `edit` and `hidden` may be left out. */
  datatype Datum = Datum(key: string, value: string, edit: Option<bool>, hidden: Option<bool>)

  /** A configured service: its name, its `group.function` check and its data. */
  datatype ServiceConfig = ServiceConfig(name: string, check: string, data: seq<Datum>)

  /** The part of the configuration seeding reads. */
  datatype SeedConfig = SeedConfig(minimum: int, maximum: int, services: seq<ServiceConfig>)

  const CheckSeparator: string := "."
  const TeamPlaceholderName: string := "team"

  const MinimumNotBelowMaximum: Exception := Exception("AssertionError", "")
  const CheckWithoutSeparator: Exception := Exception("ValueError", "not enough values to unpack (expected 2, got 1)")
  const DuplicateServiceName: Exception := Exception("IntegrityError", "duplicate key value violates unique constraint on services.name")

  /** `'Team {}'.format(n)`. */
  function TeamName(n: int): string
  {
    "Team " + IntToString(n)
  }

  /** The k-th team added: numbered `minimum + k`, the check team exactly when that is the maximum. */
  function TeamFor(cfg: SeedConfig, k: nat): Team
  {
    NewTeam(k + 1, TeamName(cfg.minimum + k), Some(cfg.minimum + k == cfg.maximum))
  }

  /** The teams of `range(minimum, maximum + 1)`, in order. */
  function PlanTeams(cfg: SeedConfig): seq<Team>
    requires cfg.minimum < cfg.maximum
  {
    seq(cfg.maximum - cfg.minimum + 1, k requires 0 <= k < cfg.maximum - cfg.minimum + 1 => TeamFor(cfg, k))
  }

  /**
   * There are `maximum - minimum + 1` teams, team `k` named after number
   * `minimum + k`, all enabled, exactly one of them (the one numbered
   * `maximum`) the check team, and no two sharing a name or an id.
   */
  lemma PlanTeamsShape(cfg: SeedConfig)
    requires cfg.minimum < cfg.maximum
    ensures |PlanTeams(cfg)| == cfg.maximum - cfg.minimum + 1
    ensures forall k :: 0 <= k < |PlanTeams(cfg)| ==>
      PlanTeams(cfg)[k].name == TeamName(cfg.minimum + k) && PlanTeams(cfg)[k].id == k + 1 && PlanTeams(cfg)[k].enabled
    ensures forall k :: 0 <= k < |PlanTeams(cfg)| ==> (PlanTeams(cfg)[k].checkTeam <==> k == cfg.maximum - cfg.minimum)
    ensures UniqueTeams(PlanTeams(cfg))
  {
    var teams := PlanTeams(cfg);
    forall i, j | 0 <= i < j < |teams|
      ensures teams[i].name != teams[j].name && teams[i].id != teams[j].id
    {
      if teams[i].name == teams[j].name {
        assert TeamName(cfg.minimum + i)[5..] == IntToString(cfg.minimum + i);
        assert TeamName(cfg.minimum + j)[5..] == IntToString(cfg.minimum + j);
        IntToStringInjective(cfg.minimum + i, cfg.minimum + j);
      }
    }
  }

  /** `check_group, check_function = check.split('.', 1)`: a ValueError when there is no dot. */
  function SplitCheck(check: string): (r: Result<(string, string), Exception>)
    ensures r.Success? <==> Contains(check, CheckSeparator)
    ensures r.Success? ==> r.value.0 + CheckSeparator + r.value.1 == check
    ensures r.Success? ==> !Contains(r.value.0, CheckSeparator)
    ensures r.Failure? ==> r.error == CheckWithoutSeparator
  {
    var parts := Split1(check, CheckSeparator);
    if |parts| == 2 then
      assert Join(parts[1..], CheckSeparator) == parts[1];
      Success((parts[0], parts[1]))
    else Failure(CheckWithoutSeparator)
  }

  /** `str(datum['value']).format(team=team_num)`. */
  function TeamValue(d: Datum, teamNumber: int): Result<string, Exception>
  {
    Format(d.value, [], map[TeamPlaceholderName := IntToString(teamNumber)])
  }

  /** Every `{team}` (the `field`) in a value is replaced by the team number. */
  lemma TeamPlaceholder(lits: seq<string>, d: Datum, teamNumber: int, field: string)
    requires lits != [] && forall i :: 0 <= i < |lits| ==> NoBraces(lits[i])
    requires field == "{" + TeamPlaceholderName + "}" && d.value == Join(lits, field)
    ensures TeamValue(d, teamNumber) == Success(Join(lits, IntToString(teamNumber)))
  {
    PlaceholderIsKeyword();
    KeywordValue(lits, d, TeamPlaceholderName, IntToString(teamNumber));
  }

  /** `team` names a keyword argument: it is neither empty, nor digits, nor has braces. */
  lemma PlaceholderIsKeyword()
    ensures IsKeywordName(TeamPlaceholderName)
  {
    assert TeamPlaceholderName[0] == 't';
  }

  /** A value whose only fields are `{name}` formats with `name=value` to its literals joined by `value`. */
  lemma KeywordValue(lits: seq<string>, d: Datum, name: string, value: string)
    requires lits != [] && forall i :: 0 <= i < |lits| ==> NoBraces(lits[i])
    requires IsKeywordName(name) && d.value == Join(lits, "{" + name + "}")
    ensures Format(d.value, [], map[name := value]) == Success(Join(lits, value))
  {
    FormatKeyword(lits, name, [], map[name := value], Unset);
  }

  /** How a datum's value is filled in for a team number. */
  type Formatter = (Datum, int) -> Result<string, Exception>

  /** The row of one team for datum `order`, given its formatted value. */
  function RowOf(teamId: int, serviceId: int, d: Datum, value: string, order: nat): TeamService
  {
    NewTeamService(teamId, serviceId, d.key, value, d.edit, d.hidden, Some(order))
  }

  /** The rows of one team for one service, datum by datum (`enumerate(cfg['data'])`). */
  function DatumRows(fmt: Formatter, teamId: int, serviceId: int, teamNumber: int, data: seq<Datum>): Result<seq<TeamService>, Exception>
  {
    if data == [] then Success([])
    else
      match DatumRows(fmt, teamId, serviceId, teamNumber, data[..|data| - 1])
      case Failure(e) => Failure(e)
      case Success(rows) =>
        match fmt(data[|data| - 1], teamNumber)
        case Failure(e) => Failure(e)
        case Success(v) => Success(rows + [RowOf(teamId, serviceId, data[|data| - 1], v, |data| - 1)])
  }

  /** The rows of one service: team by team (`teams.items()`), each team's data in order. */
  function ServiceRows(fmt: Formatter, minimum: int, teamCount: nat, serviceId: int, data: seq<Datum>): Result<seq<TeamService>, Exception>
  {
    if teamCount == 0 then Success([])
    else
      match ServiceRows(fmt, minimum, teamCount - 1, serviceId, data)
      case Failure(e) => Failure(e)
      case Success(rows) =>
        match DatumRows(fmt, teamCount, serviceId, minimum + teamCount - 1, data)
        case Failure(e) => Failure(e)
        case Success(more) => Success(rows + more)
  }

  /** The services and all their rows, service by service. */
  function PlanServices(fmt: Formatter, minimum: int, teamCount: nat, services: seq<ServiceConfig>): Result<(seq<Service>, seq<TeamService>), Exception>
  {
    if services == [] then Success(([], []))
    else
      var sc := services[|services| - 1];
      match PlanServices(fmt, minimum, teamCount, services[..|services| - 1])
      case Failure(e) => Failure(e)
      case Success(acc) =>
        match SplitCheck(sc.check)
        case Failure(e) => Failure(e)
        case Success(names) =>
          match ServiceRows(fmt, minimum, teamCount, |services|, sc.data)
          case Failure(e) => Failure(e)
          case Success(rows) =>
            Success((acc.0 + [NewService(|services|, sc.name, names.0, names.1)], acc.1 + rows))
  }

  /**
   * What seeding leaves in the tables: the teams, the services and their
   * rows; or the first exception raised: the failed assertion on the team
   * range, a check without a dot, a value that does not format, and last
   * the unique constraint on service names when the session commits.
   */
  function Plan(cfg: SeedConfig): (r: Result<(seq<Team>, seq<Service>, seq<TeamService>), Exception>)
    ensures !(cfg.minimum < cfg.maximum) ==> r == Failure(MinimumNotBelowMaximum)
    ensures r.Success? ==>
      |r.value.0| == cfg.maximum - cfg.minimum + 1 && |r.value.1| == |cfg.services| && UniqueServices(r.value.1)
  {
    if !(cfg.minimum < cfg.maximum) then Failure(MinimumNotBelowMaximum)
    else
      var teams := PlanTeams(cfg);
      PlanServicesShape(TeamValue, cfg.minimum, |teams|, cfg.services);
      match PlanServices(TeamValue, cfg.minimum, |teams|, cfg.services)
      case Failure(e) => Failure(e)
      case Success(planned) =>
        if !UniqueServices(planned.0) then Failure(DuplicateServiceName)
        else Success((teams, planned.0, planned.1))
  }

  /**
   * One team's rows: one per datum, in order, each carrying the datum's key,
   * its value with the team number filled in, and its index as `order`.
   */
  lemma {:induction false} DatumRowsShape(fmt: Formatter, teamId: int, serviceId: int, teamNumber: int, data: seq<Datum>)
    ensures DatumRows(fmt, teamId, serviceId, teamNumber, data).Success? <==>
      forall o :: 0 <= o < |data| ==> fmt(data[o], teamNumber).Success?
    ensures DatumRows(fmt, teamId, serviceId, teamNumber, data).Success? ==>
      var rows := DatumRows(fmt, teamId, serviceId, teamNumber, data).value;
      |rows| == |data| &&
      forall o :: 0 <= o < |data| ==> rows[o] == RowOf(teamId, serviceId, data[o], fmt(data[o], teamNumber).value, o)
  {
    if data != [] {
      var init := data[..|data| - 1];
      DatumRowsShape(fmt, teamId, serviceId, teamNumber, init);
      assert forall o :: 0 <= o < |init| ==> init[o] == data[o];
    }
  }

  /** Two rows fill the same slot: same team, same service, same datum index. */
  predicate SameSlot(a: TeamService, b: TeamService)
  {
    a.teamId == b.teamId && a.serviceId == b.serviceId && a.order == b.order
  }

  /** No two rows fill the same slot. */
  predicate UniqueSlots(rows: seq<TeamService>)
  {
    forall i, j :: 0 <= i < j < |rows| ==> !SameSlot(rows[i], rows[j])
  }

  /** The row of team `k` (numbered `minimum + k`) for datum `o` has a formatted value and is among the rows. */
  predicate HasRowFor(fmt: Formatter, rows: seq<TeamService>, minimum: int, serviceId: int, data: seq<Datum>, k: nat, o: nat)
    requires o < |data|
  {
    fmt(data[o], minimum + k).Success? &&
    RowOf(k + 1, serviceId, data[o], fmt(data[o], minimum + k).value, o) in rows
  }

  /** One service's rows: `teamCount × |data|` of them, all for that service and for teams `1..teamCount`. */
  lemma {:induction false} ServiceRowsCount(fmt: Formatter, minimum: int, teamCount: nat, serviceId: int, data: seq<Datum>)
    ensures ServiceRows(fmt, minimum, teamCount, serviceId, data).Success? ==>
      var rows := ServiceRows(fmt, minimum, teamCount, serviceId, data).value;
      |rows| == teamCount * |data| &&
      forall r :: r in rows ==> r.serviceId == serviceId && 1 <= r.teamId <= teamCount
  {
    if teamCount > 0 {
      ServiceRowsCount(fmt, minimum, teamCount - 1, serviceId, data);
      DatumRowsShape(fmt, teamCount, serviceId, minimum + teamCount - 1, data);
      var before := ServiceRows(fmt, minimum, teamCount - 1, serviceId, data);
      var block := DatumRows(fmt, teamCount, serviceId, minimum + teamCount - 1, data);
      if before.Success? && block.Success? {
        assert teamCount * |data| == (teamCount - 1) * |data| + |data|;
        forall r | r in block.value
          ensures r.teamId == teamCount && r.serviceId == serviceId
        {
          var o :| 0 <= o < |block.value| && block.value[o] == r;
        }
      }
    }
  }

  /** Every team has its row for every datum among the service's rows. */
  lemma {:induction false} ServiceRowsComplete(fmt: Formatter, minimum: int, teamCount: nat, serviceId: int, data: seq<Datum>)
    ensures ServiceRows(fmt, minimum, teamCount, serviceId, data).Success? ==>
      forall k: nat, o: nat :: k < teamCount && o < |data| ==>
        HasRowFor(fmt, ServiceRows(fmt, minimum, teamCount, serviceId, data).value, minimum, serviceId, data, k, o)
  {
    if teamCount > 0 {
      ServiceRowsComplete(fmt, minimum, teamCount - 1, serviceId, data);
      DatumRowsShape(fmt, teamCount, serviceId, minimum + teamCount - 1, data);
      var before := ServiceRows(fmt, minimum, teamCount - 1, serviceId, data);
      var block := DatumRows(fmt, teamCount, serviceId, minimum + teamCount - 1, data);
      if before.Success? && block.Success? {
        var rows := before.value + block.value;
        assert ServiceRows(fmt, minimum, teamCount, serviceId, data) == Success(rows);
        forall k: nat, o: nat | k < teamCount && o < |data|
          ensures HasRowFor(fmt, rows, minimum, serviceId, data, k, o)
        {
          if k == teamCount - 1 {
            assert fmt(data[o], minimum + k).Success?;
            assert rows[|before.value| + o] == block.value[o];
          } else {
            assert HasRowFor(fmt, before.value, minimum, serviceId, data, k, o);
            var row := RowOf(k + 1, serviceId, data[o], fmt(data[o], minimum + k).value, o);
            var i :| 0 <= i < |before.value| && before.value[i] == row;
            assert rows[i] == row;
          }
        }
      }
    }
  }

  /** No slot (team, service, datum index) is filled twice among a service's rows. */
  lemma {:induction false} ServiceRowsUnique(fmt: Formatter, minimum: int, teamCount: nat, serviceId: int, data: seq<Datum>)
    ensures ServiceRows(fmt, minimum, teamCount, serviceId, data).Success? ==>
      UniqueSlots(ServiceRows(fmt, minimum, teamCount, serviceId, data).value)
  {
    if teamCount > 0 {
      ServiceRowsUnique(fmt, minimum, teamCount - 1, serviceId, data);
      ServiceRowsCount(fmt, minimum, teamCount - 1, serviceId, data);
      DatumRowsShape(fmt, teamCount, serviceId, minimum + teamCount - 1, data);
      var before := ServiceRows(fmt, minimum, teamCount - 1, serviceId, data);
      var block := DatumRows(fmt, teamCount, serviceId, minimum + teamCount - 1, data);
      if before.Success? && block.Success? {
        var rows := before.value + block.value;
        forall i, j | 0 <= i < j < |rows|
          ensures !SameSlot(rows[i], rows[j])
        {
          if j >= |before.value| {
            assert rows[j] == block.value[j - |before.value|];
            if i >= |before.value| {
              assert rows[i] == block.value[i - |before.value|];
            } else {
              assert rows[i] in before.value;
            }
          }
        }
      }
    }
  }

  /**
   * The services come in configuration order with ids `1..n`, each named as
   * configured and carrying its check split at the first dot.
   */
  lemma {:induction false} PlanServicesShape(fmt: Formatter, minimum: int, teamCount: nat, services: seq<ServiceConfig>)
    ensures PlanServices(fmt, minimum, teamCount, services).Success? ==>
      var ss := PlanServices(fmt, minimum, teamCount, services).value.0;
      |ss| == |services| &&
      forall j :: 0 <= j < |services| ==>
        ss[j].id == j + 1 && ss[j].name == services[j].name && ss[j].enabled &&
        ss[j].group + CheckSeparator + ss[j].check == services[j].check &&
        !Contains(ss[j].group, CheckSeparator)
  {
    if services != [] {
      var init := services[..|services| - 1];
      PlanServicesShape(fmt, minimum, teamCount, init);
      assert forall j :: 0 <= j < |init| ==> init[j] == services[j];
    }
  }

  /** Service `j`'s row for team `k` and datum `o` is among the rows. */
  predicate ServiceHasRow(fmt: Formatter, rows: seq<TeamService>, minimum: int, services: seq<ServiceConfig>, j: nat, k: nat, o: nat)
    requires j < |services| && o < |services[j].data|
  {
    HasRowFor(fmt, rows, minimum, j + 1, services[j].data, k, o)
  }

  /** All services' rows: every row belongs to a planned team and service. */
  lemma {:induction false} PlanServicesBounds(fmt: Formatter, minimum: int, teamCount: nat, services: seq<ServiceConfig>)
    ensures PlanServices(fmt, minimum, teamCount, services).Success? ==>
      forall r :: r in PlanServices(fmt, minimum, teamCount, services).value.1 ==>
        1 <= r.serviceId <= |services| && 1 <= r.teamId <= teamCount
  {
    if services != [] {
      var init := services[..|services| - 1];
      PlanServicesBounds(fmt, minimum, teamCount, init);
      ServiceRowsCount(fmt, minimum, teamCount, |services|, services[|services| - 1].data);
    }
  }

  /** All services' rows: every service has every team's row for each of its data. */
  lemma {:induction false} PlanServicesComplete(fmt: Formatter, minimum: int, teamCount: nat, services: seq<ServiceConfig>)
    ensures PlanServices(fmt, minimum, teamCount, services).Success? ==>
      forall j: nat, k: nat, o: nat :: j < |services| && k < teamCount && o < |services[j].data| ==>
        ServiceHasRow(fmt, PlanServices(fmt, minimum, teamCount, services).value.1, minimum, services, j, k, o)
  {
    if services != [] {
      var init := services[..|services| - 1];
      var sc := services[|services| - 1];
      PlanServicesComplete(fmt, minimum, teamCount, init);
      var before := PlanServices(fmt, minimum, teamCount, init);
      var block := ServiceRows(fmt, minimum, teamCount, |services|, sc.data);
      if PlanServices(fmt, minimum, teamCount, services).Success? {
        assert before.Success? && block.Success?;
        ServiceRowsComplete(fmt, minimum, teamCount, |services|, sc.data);
        var oldRows := before.value.1;
        var rows := oldRows + block.value;
        assert PlanServices(fmt, minimum, teamCount, services).value.1 == rows;
        forall j: nat, k: nat, o: nat | j < |services| && k < teamCount && o < |services[j].data|
          ensures ServiceHasRow(fmt, rows, minimum, services, j, k, o)
        {
          if j == |services| - 1 {
            assert HasRowFor(fmt, block.value, minimum, |services|, sc.data, k, o);
          } else {
            assert init[j] == services[j];
            assert ServiceHasRow(fmt, oldRows, minimum, init, j, k, o);
          }
        }
      }
    }
  }

  /** All services' rows: no slot is filled twice. */
  lemma {:induction false} PlanServicesUnique(fmt: Formatter, minimum: int, teamCount: nat, services: seq<ServiceConfig>)
    ensures PlanServices(fmt, minimum, teamCount, services).Success? ==>
      UniqueSlots(PlanServices(fmt, minimum, teamCount, services).value.1)
  {
    if services != [] {
      var init := services[..|services| - 1];
      var sc := services[|services| - 1];
      PlanServicesUnique(fmt, minimum, teamCount, init);
      PlanServicesBounds(fmt, minimum, teamCount, init);
      var before := PlanServices(fmt, minimum, teamCount, init);
      var block := ServiceRows(fmt, minimum, teamCount, |services|, sc.data);
      if PlanServices(fmt, minimum, teamCount, services).Success? {
        assert before.Success? && block.Success?;
        ServiceRowsUnique(fmt, minimum, teamCount, |services|, sc.data);
        ServiceRowsCount(fmt, minimum, teamCount, |services|, sc.data);
        var oldRows := before.value.1;
        var rows := oldRows + block.value;
        assert PlanServices(fmt, minimum, teamCount, services).value.1 == rows;
        forall i, j | 0 <= i < j < |rows|
          ensures !SameSlot(rows[i], rows[j])
        {
          if j >= |oldRows| {
            assert rows[j] == block.value[j - |oldRows|];
            assert rows[j] in block.value;
            if i >= |oldRows| {
              assert rows[i] == block.value[i - |oldRows|];
            } else {
              assert rows[i] in oldRows;
            }
          }
        }
      }
    }
  }

  /** A failure in a prefix of the data is the failure of the whole team's rows. */
  lemma {:induction false} DatumRowsFailureStays(fmt: Formatter, teamId: int, serviceId: int, teamNumber: int, data: seq<Datum>, i: nat)
    requires i <= |data| && DatumRows(fmt, teamId, serviceId, teamNumber, data[..i]).Failure?
    ensures DatumRows(fmt, teamId, serviceId, teamNumber, data) == DatumRows(fmt, teamId, serviceId, teamNumber, data[..i])
    decreases |data| - i
  {
    if i < |data| {
      assert data[..i + 1][..i] == data[..i];
      DatumRowsFailureStays(fmt, teamId, serviceId, teamNumber, data, i + 1);
    } else {
      assert data[..i] == data;
    }
  }

  /** A failure for the first teams is the failure of the whole service. */
  lemma {:induction false} ServiceRowsFailureStays(fmt: Formatter, minimum: int, k: nat, teamCount: nat, serviceId: int, data: seq<Datum>)
    requires k <= teamCount && ServiceRows(fmt, minimum, k, serviceId, data).Failure?
    ensures ServiceRows(fmt, minimum, teamCount, serviceId, data) == ServiceRows(fmt, minimum, k, serviceId, data)
    decreases teamCount - k
  {
    if k < teamCount {
      ServiceRowsFailureStays(fmt, minimum, k + 1, teamCount, serviceId, data);
    }
  }

  /** A failure for the first services is the failure of the whole plan. */
  lemma {:induction false} PlanServicesFailureStays(fmt: Formatter, minimum: int, teamCount: nat, services: seq<ServiceConfig>, i: nat)
    requires i <= |services| && PlanServices(fmt, minimum, teamCount, services[..i]).Failure?
    ensures PlanServices(fmt, minimum, teamCount, services) == PlanServices(fmt, minimum, teamCount, services[..i])
    decreases |services| - i
  {
    if i < |services| {
      assert services[..i + 1][..i] == services[..i];
      PlanServicesFailureStays(fmt, minimum, teamCount, services, i + 1);
    } else {
      assert services[..i] == services;
    }
  }

  /** Planning one more service: its check split, then its rows, each of which may fail. */
  lemma PlanServicesStep(fmt: Formatter, minimum: int, teamCount: nat, configs: seq<ServiceConfig>, j: nat,
                         acc: (seq<Service>, seq<TeamService>))
    requires j < |configs| && PlanServices(fmt, minimum, teamCount, configs[..j]) == Success(acc)
    ensures var names := SplitCheck(configs[j].check);
      names.Failure? ==> PlanServices(fmt, minimum, teamCount, configs[..j + 1]) == Failure(names.error)
    ensures var names := SplitCheck(configs[j].check);
      var more := ServiceRows(fmt, minimum, teamCount, j + 1, configs[j].data);
      names.Success? && more.Failure? ==> PlanServices(fmt, minimum, teamCount, configs[..j + 1]) == Failure(more.error)
    ensures var names := SplitCheck(configs[j].check);
      var more := ServiceRows(fmt, minimum, teamCount, j + 1, configs[j].data);
      names.Success? && more.Success? ==>
        PlanServices(fmt, minimum, teamCount, configs[..j + 1]) ==
        Success((acc.0 + [NewService(j + 1, configs[j].name, names.value.0, names.value.1)], acc.1 + more.value))
  {
    assert configs[..j + 1][..j] == configs[..j];
  }

  /** One team's rows for one service: the datum loop of the row comprehension. */
  method TeamRows(fmt: Formatter, teamId: int, serviceId: int, teamNumber: int, data: seq<Datum>)
    returns (r: Result<seq<TeamService>, Exception>)
    ensures r == DatumRows(fmt, teamId, serviceId, teamNumber, data)
  {
    var rows: seq<TeamService> := [];
    var o := 0;
    while o < |data|
      invariant 0 <= o <= |data|
      invariant DatumRows(fmt, teamId, serviceId, teamNumber, data[..o]) == Success(rows)
    {
      assert data[..o + 1][..o] == data[..o];
      var value := fmt(data[o], teamNumber);
      if value.Failure? {
        DatumRowsFailureStays(fmt, teamId, serviceId, teamNumber, data, o + 1);
        return Failure(value.error);
      }
      rows := rows + [RowOf(teamId, serviceId, data[o], value.value, o)];
      o := o + 1;
    }
    assert data[..o] == data;
    r := Success(rows);
  }

  /** One service's rows: the team loop of the row comprehension. */
  method RowsOfService(fmt: Formatter, minimum: int, teamCount: nat, serviceId: int, data: seq<Datum>)
    returns (r: Result<seq<TeamService>, Exception>)
    ensures r == ServiceRows(fmt, minimum, teamCount, serviceId, data)
  {
    var rows: seq<TeamService> := [];
    var k := 0;
    while k < teamCount
      invariant 0 <= k <= teamCount
      invariant ServiceRows(fmt, minimum, k, serviceId, data) == Success(rows)
    {
      var more := TeamRows(fmt, k + 1, serviceId, minimum + k, data);
      if more.Failure? {
        ServiceRowsFailureStays(fmt, minimum, k + 1, teamCount, serviceId, data);
        return Failure(more.error);
      }
      rows := rows + more.value;
      k := k + 1;
    }
    r := Success(rows);
  }

  /** The team loop: `range(minimum, maximum + 1)`, the last number being the check team. */
  method AddTeams(cfg: SeedConfig) returns (teams: seq<Team>)
    requires cfg.minimum < cfg.maximum
    ensures teams == PlanTeams(cfg)
  {
    teams := [];
    var n := cfg.minimum;
    while n <= cfg.maximum
      invariant cfg.minimum <= n <= cfg.maximum + 1
      invariant teams == PlanTeams(cfg)[..n - cfg.minimum]
    {
      teams := teams + [TeamFor(cfg, n - cfg.minimum)];
      n := n + 1;
    }
    assert teams == PlanTeams(cfg);
  }

  /** The service loop: each service's check split, the service, then its rows. */
  method AddServices(fmt: Formatter, minimum: int, teamCount: nat, configs: seq<ServiceConfig>)
    returns (r: Result<(seq<Service>, seq<TeamService>), Exception>)
    ensures r == PlanServices(fmt, minimum, teamCount, configs)
  {
    var services: seq<Service> := [];
    var rows: seq<TeamService> := [];
    var j := 0;
    while j < |configs|
      invariant 0 <= j <= |configs|
      invariant PlanServices(fmt, minimum, teamCount, configs[..j]) == Success((services, rows))
    {
      var sc := configs[j];
      PlanServicesStep(fmt, minimum, teamCount, configs, j, (services, rows));
      var names := SplitCheck(sc.check);
      if names.Failure? {
        PlanServicesFailureStays(fmt, minimum, teamCount, configs, j + 1);
        return Failure(names.error);
      }
      var more := RowsOfService(fmt, minimum, teamCount, j + 1, sc.data);
      if more.Failure? {
        PlanServicesFailureStays(fmt, minimum, teamCount, configs, j + 1);
        return Failure(more.error);
      }
      services := services + [NewService(j + 1, sc.name, names.value.0, names.value.1)];
      rows := rows + more.value;
      j := j + 1;
    }
    assert configs[..j] == configs;
    r := Success((services, rows));
  }

  /**
   * `init_db_from_config()`: recreates every table, then adds the teams, the
   * services and their rows in one scoped session. Any exception leaves the
   * recreated tables empty.
   */
  method Seed(db: Db, cfg: SeedConfig) returns (err: Option<Exception>)
    modifies db
    ensures db.Valid()
    ensures err.None? <==> Plan(cfg).Success?
    ensures err.Some? ==> err.value == Plan(cfg).error
    ensures err.Some? ==> db.rounds == [] && db.teams == [] && db.services == [] && db.teamServices == [] && db.checks == []
    ensures err.None? ==>
      db.teams == Plan(cfg).value.0 && db.services == Plan(cfg).value.1 && db.teamServices == Plan(cfg).value.2 &&
      db.rounds == [] && db.checks == []
  {
    db.Recreate();
    if !(cfg.minimum < cfg.maximum) {
      return Some(MinimumNotBelowMaximum);
    }
    var teams := AddTeams(cfg);
    var planned := AddServices(TeamValue, cfg.minimum, |teams|, cfg.services);
    if planned.Failure? {
      return Some(planned.error);
    }
    if !UniqueServices(planned.value.0) {
      return Some(DuplicateServiceName);
    }
    PlanTeamsShape(cfg);
    db.CommitSeed(teams, planned.value.0, planned.value.1);
    err := None;
  }

  /**
   * A successful seeding: the teams as planned (one check team, the last),
   * one service per configured service with its check split at the first
   * dot and unique names, and for every service, team and datum exactly one
   * row, with nothing else.
   */
  lemma PlanShape(cfg: SeedConfig)
    requires Plan(cfg).Success?
    ensures cfg.minimum < cfg.maximum
    ensures Plan(cfg).value.0 == PlanTeams(cfg) && UniqueTeams(Plan(cfg).value.0)
    ensures UniqueServices(Plan(cfg).value.1) && |Plan(cfg).value.1| == |cfg.services|
    ensures forall j :: 0 <= j < |cfg.services| ==>
      Plan(cfg).value.1[j].name == cfg.services[j].name &&
      Plan(cfg).value.1[j].group + CheckSeparator + Plan(cfg).value.1[j].check == cfg.services[j].check
    ensures forall j: nat, k: nat, o: nat :: j < |cfg.services| && k < |Plan(cfg).value.0| && o < |cfg.services[j].data| ==>
      ServiceHasRow(TeamValue, Plan(cfg).value.2, cfg.minimum, cfg.services, j, k, o)
    ensures UniqueSlots(Plan(cfg).value.2)
  {
    PlanTeamsShape(cfg);
    PlanServicesShape(TeamValue, cfg.minimum, |PlanTeams(cfg)|, cfg.services);
    PlanServicesComplete(TeamValue, cfg.minimum, |PlanTeams(cfg)|, cfg.services);
    PlanServicesUnique(TeamValue, cfg.minimum, |PlanTeams(cfg)|, cfg.services);
  }
}
