/**
 * Credential resolution and the task description (`serialize_check`): the
 * configuration rows of one team and service are grouped by key, one value
 * is picked per key, a `USERPASS` value is split into `USER` and `PASS`, and
 * the result is wrapped into the record that a check task carries.
 */
module Credentials {
  import opened Wrappers
  import opened Text
  import opened Models
  import Database

  /** A resolved configuration: one value per key. */
  type Config = map<string, string>

  datatype KeyValue = KeyValue(key: string, value: string)

  /** Names the probe module and the function in it that performs the check. */
  datatype CheckRef = CheckRef(fileName: string, functionName: string)

  /** The serialized task description of one (team, service) check. */
  datatype Task = Task(check: CheckRef, config: Config, official: bool, output: seq<string>,
                       passed: bool, roundNumber: int, serviceId: int, serviceName: string,
                       teamId: int)

  /** The round number a task is serialized with when the caller names none. */
  const DefaultRound: int := -1

  const UserPassKey: string := "USERPASS"
  const UserKey: string := "USER"
  const PassKey: string := "PASS"
  const UserPassDelimiter: string := "||"

  /** The (key, value) pairs stored for one team and one service. */
  function PairRows(rows: seq<TeamService>, teamId: int, serviceId: int): (r: seq<KeyValue>)
    ensures forall kv :: kv in r <==> exists i :: 0 <= i < |rows| && rows[i].teamId == teamId
                                       && rows[i].serviceId == serviceId && kv == KeyValue(rows[i].key, rows[i].value)
  {
    if rows == [] then []
    else
      var rest := PairRows(rows[1..], teamId, serviceId);
      assert forall i :: 1 <= i < |rows| ==> rows[i] == rows[1..][i - 1];
      if rows[0].teamId == teamId && rows[0].serviceId == serviceId
      then [KeyValue(rows[0].key, rows[0].value)] + rest
      else rest
  }

  /** The keys that occur among the rows. */
  function KeysOf(rows: seq<KeyValue>): set<string>
  {
    set i | 0 <= i < |rows| :: rows[i].key
  }

  /** The values stored under `key`, in row order. */
  function ValuesFor(rows: seq<KeyValue>, key: string): seq<string>
  {
    if rows == [] then []
    else ValuesFor(rows[..|rows| - 1], key) + (if rows[|rows| - 1].key == key then [rows[|rows| - 1].value] else [])
  }

  /** `key` has stored values exactly when some row carries it. */
  lemma {:induction false} ValuesForNonEmpty(rows: seq<KeyValue>, key: string)
    ensures ValuesFor(rows, key) != [] <==> key in KeysOf(rows)
    ensures forall v :: v in ValuesFor(rows, key) ==> KeyValue(key, v) in rows
  {
    if rows != [] {
      var init := rows[..|rows| - 1];
      ValuesForNonEmpty(init, key);
      assert KeysOf(rows) == KeysOf(init) + {rows[|rows| - 1].key} by {
        assert forall i :: 0 <= i < |init| ==> init[i] == rows[i];
      }
      assert forall kv :: kv in init ==> kv in rows;
    }
  }

  /**
   * The grouping loop: a map from every key that occurs in the rows to the
   * list of its values in row order.
   */
  method GroupByKey(rows: seq<KeyValue>) returns (grouped: map<string, seq<string>>)
    ensures grouped.Keys == KeysOf(rows)
    ensures forall k :: k in grouped ==> grouped[k] == ValuesFor(rows, k)
  {
    grouped := map[];
    for i := 0 to |rows|
      invariant grouped.Keys == KeysOf(rows[..i])
      invariant forall k :: k in grouped ==> grouped[k] == ValuesFor(rows[..i], k)
    {
      var kv := rows[i];
      assert rows[..i + 1][..i] == rows[..i];
      assert KeysOf(rows[..i + 1]) == KeysOf(rows[..i]) + {kv.key} by {
        assert forall j :: 0 <= j < i ==> rows[..i + 1][j] == rows[..i][j];
      }
      ValuesForNonEmpty(rows[..i], kv.key);
      if kv.key in grouped {
        grouped := grouped[kv.key := grouped[kv.key] + [kv.value]];
      } else {
        grouped := grouped[kv.key := [kv.value]];
      }
    }
    assert rows[..|rows|] == rows;
  }

  /** `c` holds, for every key of the rows and no other, one of the values stored for it. */
  ghost predicate IsChoice(rows: seq<KeyValue>, c: Config)
  {
    c.Keys == KeysOf(rows) && forall k :: k in c ==> c[k] in ValuesFor(rows, k)
  }

  /** The reduction loop: `random.choice` picks one value of each key's list. */
  method ChooseValues(grouped: map<string, seq<string>>) returns (c: Config)
    requires forall k :: k in grouped ==> grouped[k] != []
    ensures c.Keys == grouped.Keys
    ensures forall k :: k in c ==> c[k] in grouped[k]
  {
    c := map[];
    var todo := grouped.Keys;
    while todo != {}
      invariant todo <= grouped.Keys
      invariant c.Keys == grouped.Keys - todo
      invariant forall k :: k in c ==> c[k] in grouped[k]
      decreases todo
    {
      var k :| k in todo;
      assert grouped[k][0] in grouped[k];
      var v :| v in grouped[k];
      c := c[k := v];
      todo := todo - {k};
    }
  }

  /** The configuration holds a `USERPASS` value that contains the delimiter. */
  predicate SplitsUserPass(c: Config)
  {
    UserPassKey in c && Contains(c[UserPassKey], UserPassDelimiter)
  }

  /**
   * Splits `USERPASS` at its first `||` into `USER` (the text before) and
   * `PASS` (all the text after, which may itself hold `||`), overwriting any
   * `USER` and `PASS` and keeping `USERPASS`.
   */
  function SplitUserPass(c: Config): (r: Config)
    ensures SplitsUserPass(c) ==> r.Keys == c.Keys + {UserKey, PassKey}
    ensures SplitsUserPass(c) ==> r[UserKey] + UserPassDelimiter + r[PassKey] == c[UserPassKey]
    ensures SplitsUserPass(c) ==> !Contains(r[UserKey], UserPassDelimiter)
    // the split is at the first `||`: USER is everything before it, PASS everything after it
    ensures SplitsUserPass(c) ==>
      Find(c[UserPassKey], UserPassDelimiter).Some? &&
      r[UserKey] == c[UserPassKey][..Find(c[UserPassKey], UserPassDelimiter).value] &&
      r[PassKey] == c[UserPassKey][Find(c[UserPassKey], UserPassDelimiter).value + |UserPassDelimiter|..]
    ensures SplitsUserPass(c) ==> r[UserPassKey] == c[UserPassKey]
    ensures !SplitsUserPass(c) ==> r == c
    ensures forall k :: k in c && k != UserKey && k != PassKey ==> k in r && r[k] == c[k]
  {
    if SplitsUserPass(c) then
      var parts := Split1(c[UserPassKey], UserPassDelimiter);
      c[UserKey := parts[0]][PassKey := parts[1]]
    else c
  }

  /**
   * Resolves the configuration rows of one team and service: `picked` is the
   * random choice of one value per key, `config` that choice after the
   * `USERPASS` split.
   */
  method ResolveConfig(rows: seq<KeyValue>) returns (config: Config, ghost picked: Config)
    ensures IsChoice(rows, picked)
    ensures config == SplitUserPass(picked)
  {
    var grouped := GroupByKey(rows);
    forall k | k in grouped ensures grouped[k] != [] {
      ValuesForNonEmpty(rows, k);
    }
    var chosen := ChooseValues(grouped);
    picked := chosen;
    config := SplitUserPass(chosen);
  }

  /**
   * What a resolved configuration promises: every stored key is present,
   * there are no other keys except `USER`/`PASS` from the split, and each
   * value the split did not write was stored for its key.
   */
  lemma ResolvedConfig(rows: seq<KeyValue>, picked: Config)
    requires IsChoice(rows, picked)
    ensures KeysOf(rows) <= SplitUserPass(picked).Keys
    ensures forall k :: k in SplitUserPass(picked) ==> k in KeysOf(rows) || (SplitsUserPass(picked) && (k == UserKey || k == PassKey))
    ensures forall k :: k in SplitUserPass(picked) && !(SplitsUserPass(picked) && (k == UserKey || k == PassKey))
                        ==> SplitUserPass(picked)[k] in ValuesFor(rows, k)
    ensures forall k :: k in SplitUserPass(picked) && !(SplitsUserPass(picked) && (k == UserKey || k == PassKey))
                        ==> KeyValue(k, SplitUserPass(picked)[k]) in rows
  {
    var r := SplitUserPass(picked);
    forall k | k in r && !(SplitsUserPass(picked) && (k == UserKey || k == PassKey))
      ensures KeyValue(k, r[k]) in rows
    {
      ValuesForNonEmpty(rows, k);
    }
  }

  /**
   * The task description: `official` exactly for a positive round number,
   * no output yet and not passed.
   */
  function Describe(team: Team, service: Service, roundNumber: int, config: Config): (t: Task)
    ensures t.official <==> roundNumber > 0
    ensures t.output == [] && !t.passed
    ensures t.check == CheckRef(service.group, service.check)
    ensures t.config == config && t.roundNumber == roundNumber
    ensures t.serviceId == service.id && t.serviceName == service.name && t.teamId == team.id
  {
    Task(CheckRef(service.group, service.check), config, roundNumber > 0, [], false,
         roundNumber, service.id, service.name, team.id)
  }

  /** `serialize_check(session, team, service, round_number)`. */
  method SerializeCheck(db: Database.Db, team: Team, service: Service, roundNumber: int)
    returns (t: Task, ghost picked: Config)
    ensures IsChoice(PairRows(db.teamServices, team.id, service.id), picked)
    ensures t == Describe(team, service, roundNumber, SplitUserPass(picked))
  {
    var rows := PairRows(db.teamServices, team.id, service.id);
    var config;
    config, picked := ResolveConfig(rows);
    t := Describe(team, service, roundNumber, config);
  }
}
