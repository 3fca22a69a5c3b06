/**
 * The persisted entities: rounds, teams, services, the per-team service
 * configuration rows and the check results. Each constructor function fills
 * in the column defaults the schema declares for the fields it is not given.
 */
module Models {
  import opened Wrappers

  /** A reading of the abstract clock that stands for the database server's time. */
  type Timestamp = int

  datatype Round = Round(number: int, completed: bool, start: Timestamp, finish: Option<Timestamp>)

  datatype Team = Team(id: int, name: string, enabled: bool, checkTeam: bool)

  datatype Service = Service(id: int, name: string, group: string, check: string, enabled: bool)

  datatype TeamService = TeamService(teamId: int, serviceId: int, key: string, value: string,
                                     edit: bool, hidden: bool, order: int)

  datatype Check = Check(teamId: int, serviceId: int, round: int, time: Timestamp,
                         passed: bool, output: string)

  /** `Round(number)` as inserted at time `now`: not completed and without a finish time. */
  function NewRound(number: int, now: Timestamp): (r: Round)
    ensures r.number == number && !r.completed && r.finish.None? && r.start == now
  {
    Round(number, false, now, None)
  }

  /**
   * `Team(name, check_team)` stored under primary key `id`: enabled, and a
   * check team only when `check_team` is given as true.
   */
  function NewTeam(id: int, name: string, checkTeam: Option<bool>): (t: Team)
    ensures t.id == id && t.name == name && t.enabled
    ensures checkTeam.None? ==> !t.checkTeam
    ensures checkTeam.Some? ==> t.checkTeam == checkTeam.value
  {
    Team(id, name, true, checkTeam.GetOr(false))
  }

  /** `Service(name, group, check)` stored under primary key `id`: enabled. */
  function NewService(id: int, name: string, group: string, check: string): (s: Service)
    ensures s.id == id && s.name == name && s.group == group && s.check == check && s.enabled
  {
    Service(id, name, group, check, true)
  }

  /**
   * `TeamService(team, service, key, value, edit, hidden, order)`: editable,
   * not hidden and at order 0 unless the argument says otherwise.
   */
  function NewTeamService(teamId: int, serviceId: int, key: string, value: string,
                          edit: Option<bool>, hidden: Option<bool>, order: Option<int>): (r: TeamService)
    ensures r.teamId == teamId && r.serviceId == serviceId && r.key == key && r.value == value
    ensures edit.None? ==> r.edit
    ensures hidden.None? ==> !r.hidden
    ensures order.None? ==> r.order == 0
    ensures edit.Some? ==> r.edit == edit.value
    ensures hidden.Some? ==> r.hidden == hidden.value
    ensures order.Some? ==> r.order == order.value
  {
    TeamService(teamId, serviceId, key, value, edit.GetOr(true), hidden.GetOr(false), order.GetOr(0))
  }

  /** The unique constraint on `rounds.number`. */
  predicate UniqueRoundNumbers(rounds: seq<Round>)
  {
    forall i, j :: 0 <= i < j < |rounds| ==> rounds[i].number != rounds[j].number
  }

  /** The unique constraint on `teams.name` and the primary key on `teams.id`. */
  predicate UniqueTeams(teams: seq<Team>)
  {
    forall i, j :: 0 <= i < j < |teams| ==> teams[i].name != teams[j].name && teams[i].id != teams[j].id
  }

  /** The unique constraint on `services.name` and the primary key on `services.id`. */
  predicate UniqueServices(services: seq<Service>)
  {
    forall i, j :: 0 <= i < j < |services| ==> services[i].name != services[j].name && services[i].id != services[j].id
  }
}
