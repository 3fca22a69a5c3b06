/**
 * The database as in-memory tables. Each method is one committed unit of
 * work: it either takes full effect or, when the database refuses it, leaves
 * every table as it was (the rollback of a scoped session).
 */
module Database {
  import opened Wrappers
  import opened Models

  class Db {
    var rounds: seq<Round>
    var teams: seq<Team>
    var services: seq<Service>
    var teamServices: seq<TeamService>
    var checks: seq<Check>

    /** The table constraints of the schema. */
    ghost predicate Valid()
      reads this
    {
      UniqueRoundNumbers(rounds) && UniqueTeams(teams) && UniqueServices(services)
    }

    /** Freshly created, empty tables. */
    constructor ()
      ensures Valid()
      ensures rounds == [] && teams == [] && services == [] && teamServices == [] && checks == []
    {
      rounds, teams, services, teamServices, checks := [], [], [], [], [];
    }

    /** The position of the round row with this number, if there is one. */
    function FindRound(number: int): (r: Option<nat>)
      reads this
      ensures r.Some? ==> r.value < |rounds| && rounds[r.value].number == number
      ensures r.None? ==> forall i :: 0 <= i < |rounds| ==> rounds[i].number != number
    {
      FindRoundIn(rounds, number)
    }

    /** `SELECT max(number) FROM rounds`: NULL (`None`) on an empty table. */
    function MaxRoundNumber(): (m: Option<int>)
      reads this
      ensures m.None? <==> rounds == []
      ensures m.Some? ==> (exists i :: 0 <= i < |rounds| && rounds[i].number == m.value)
      ensures m.Some? ==> forall i :: 0 <= i < |rounds| ==> rounds[i].number <= m.value
    {
      MaxNumber(rounds)
    }

    /** The rows of `teams` whose `enabled` is set. */
    function EnabledTeams(): (r: seq<Team>)
      reads this
      ensures forall t :: t in r <==> t in teams && t.enabled
    {
      EnabledTeamsIn(teams)
    }

    /** The rows of `services` whose `enabled` is set. */
    function EnabledServices(): (r: seq<Service>)
      reads this
      ensures forall s :: s in r <==> s in services && s.enabled
    {
      EnabledServicesIn(services)
    }

    /**
     * `session.add(Round(number))` followed by a commit: a new, incomplete
     * round row, or an IntegrityError from the unique constraint on the
     * number, in which case nothing changes.
     */
    method AddRound(number: int, now: Timestamp) returns (err: Option<Exception>)
      requires Valid()
      modifies this
      ensures Valid()
      ensures err.None? <==> old(FindRound(number)).None?
      ensures err.None? ==> rounds == old(rounds) + [NewRound(number, now)]
      ensures err.Some? ==> rounds == old(rounds) && IsDatabaseError(err.value)
      ensures teams == old(teams) && services == old(services)
      ensures teamServices == old(teamServices) && checks == old(checks)
    {
      if FindRound(number).Some? {
        return Some(Exception("IntegrityError", "duplicate key value violates unique constraint on rounds.number"));
      }
      rounds := rounds + [NewRound(number, now)];
      err := None;
    }

    /** `session.query(Round).delete()`: every round row goes; check rows stay. */
    method DeleteRounds()
      requires Valid()
      modifies this
      ensures Valid()
      ensures rounds == []
      ensures teams == old(teams) && services == old(services)
      ensures teamServices == old(teamServices) && checks == old(checks)
    {
      rounds := [];
    }

    /** `drop_all` then `create_all`: every table is recreated empty. */
    method Recreate()
      modifies this
      ensures Valid()
      ensures rounds == [] && teams == [] && services == [] && teamServices == [] && checks == []
    {
      rounds, teams, services, teamServices, checks := [], [], [], [], [];
    }

    /**
     * Commits the result of an official round: the new check rows, and the
     * round row at `index` marked completed with finish time `now`.
     */
    method CommitRound(index: nat, rows: seq<Check>, now: Timestamp)
      requires Valid() && index < |rounds|
      modifies this
      ensures Valid()
      ensures checks == old(checks) + rows
      ensures rounds == old(rounds)[index := old(rounds)[index].(completed := true, finish := Some(now))]
      ensures teams == old(teams) && services == old(services) && teamServices == old(teamServices)
    {
      checks := checks + rows;
      rounds := rounds[index := rounds[index].(completed := true, finish := Some(now))];
    }

    /** Commits a freshly seeded exercise into empty tables. */
    method CommitSeed(ts: seq<Team>, ss: seq<Service>, rows: seq<TeamService>)
      requires UniqueTeams(ts) && UniqueServices(ss)
      requires rounds == [] && teams == [] && services == [] && teamServices == [] && checks == []
      modifies this
      ensures Valid()
      ensures teams == ts && services == ss && teamServices == rows && rounds == [] && checks == []
    {
      teams, services, teamServices := ts, ss, rows;
    }
  }

  function FindRoundIn(rounds: seq<Round>, number: int): (r: Option<nat>)
    ensures r.Some? ==> r.value < |rounds| && rounds[r.value].number == number
    ensures r.None? ==> forall i :: 0 <= i < |rounds| ==> rounds[i].number != number
  {
    if rounds == [] then None
    else if rounds[0].number == number then Some(0)
    else match FindRoundIn(rounds[1..], number)
      case None => None
      case Some(i) => Some(i + 1)
  }

  function MaxNumber(rounds: seq<Round>): (m: Option<int>)
    ensures m.None? <==> rounds == []
    ensures m.Some? ==> (exists i :: 0 <= i < |rounds| && rounds[i].number == m.value)
    ensures m.Some? ==> forall i :: 0 <= i < |rounds| ==> rounds[i].number <= m.value
  {
    if rounds == [] then None
    else match MaxNumber(rounds[1..])
      case None => Some(rounds[0].number)
      case Some(k) =>
        assert forall i :: 1 <= i < |rounds| ==> rounds[i] == rounds[1..][i - 1];
        Some(if rounds[0].number < k then k else rounds[0].number)
  }

  function EnabledTeamsIn(teams: seq<Team>): (r: seq<Team>)
    ensures forall t :: t in r <==> t in teams && t.enabled
  {
    if teams == [] then []
    else (if teams[0].enabled then [teams[0]] else []) + EnabledTeamsIn(teams[1..])
  }

  function EnabledServicesIn(services: seq<Service>): (r: seq<Service>)
    ensures forall s :: s in r <==> s in services && s.enabled
  {
    if services == [] then []
    else (if services[0].enabled then [services[0]] else []) + EnabledServicesIn(services[1..])
  }
}
