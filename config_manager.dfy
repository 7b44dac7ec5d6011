/**
  * The configuration manager: settings live in a key-value database whose values are
  * JSON, and the process environment is the fallback.  `get_config` asks the database
  * first and converts environment strings for a few well-known keys; `set_config`
  * infers a key's category; the one-time migration copies the environment into the
  * database and then marks itself done.  The database is an in-memory map and the
  * environment a parameter.
  */
module ConfigManagement {
  import opened Wrappers
  import opened Text

  /** A value as the database's JSON column decodes it; `VNone` is JSON `null`. */
  datatype Value = VNone | VBool(b: bool) | VInt(i: int) | VStr(s: string) | VList(items: seq<string>)

  /** Python truthiness of a decoded value. */
  predicate Truthy(v: Value) {
    match v
    case VNone => false
    case VBool(b) => b
    case VInt(i) => i != 0
    case VStr(s) => s != ""
    case VList(items) => items != []
  }

  /** One row of the configuration table. */
  datatype Entry = Entry(value: Value, category: string, description: string)

  type Db = map<string, Entry>
  type Env = map<string, string>

  /** The database's `get_config(key, default)`: the stored value, else the default. */
  function DbGet(db: Db, key: string, default: Value): (r: Value)
    ensures key in db ==> r == db[key].value
    ensures key !in db ==> r == default
  {
    if key in db then db[key].value else default
  }

  /** The environment variable consulted for a key: dots become underscores, then upper case. */
  function EnvKey(key: string): (r: string)
    ensures |r| == |key|
    ensures forall k :: 0 <= k < |key| ==> r[k] == (if key[k] == '.' then '_' else UpperChar(key[k]))
  {
    Upper(ReplaceChar(key, '.', '_'))
  }

  /** The spellings of a true flag, compared after lower-casing. */
  const TruthyWords: set<string> := {"true", "1", "yes", "on"}

  /** The keys whose environment strings are passed through `int()`. */
  predicate NumericKey(key: string) {
    EndsWith(key, ".days_back") || EndsWith(key, ".alert_threshold_seconds")
    || EndsWith(key, ".sync_start_hour") || EndsWith(key, ".sync_end_hour")
  }

  /**
    * The conversion of an environment string for `key`: a flag for `.dry_run` keys, an
    * integer for the numeric keys (a string `int()` rejects raises `ValueError`), the
    * string itself otherwise.
    */
  function Convert(key: string, raw: string): (r: Result<Value>)
    ensures r.Err? ==> !EndsWith(key, ".dry_run") && NumericKey(key) && ParseInt(raw).None?
    ensures r.Ok? && EndsWith(key, ".dry_run") ==> r.value.VBool?
    ensures r.Ok? && r.value.VStr? ==> r.value.s == raw
  {
    if EndsWith(key, ".dry_run") then Ok(VBool(Lower(raw) in TruthyWords))
    else if NumericKey(key) then
      match ParseInt(raw)
      case Some(n) => Ok(VInt(n))
      case None => Err("ValueError: invalid literal for int()")
    else Ok(VStr(raw))
  }

  /** A numeric key converts the decimal text of any integer back to that integer. */
  lemma NumericRoundTrip(key: string, n: int)
    requires NumericKey(key) && !EndsWith(key, ".dry_run")
    ensures Convert(key, IntToString(n)) == Ok(VInt(n))
  {
    ParseIntOfIntToString(n);
  }

  /** A `.dry_run` flag is true exactly for the four spellings, in any case. */
  lemma DryRunFlag(key: string, raw: string)
    requires EndsWith(key, ".dry_run")
    ensures Convert(key, raw) == Ok(VBool(Lower(raw) == "true" || Lower(raw) == "1"
                                          || Lower(raw) == "yes" || Lower(raw) == "on"))
  {
  }

  /** Any other key keeps the environment string as it is. */
  lemma OtherKeysKeepText(key: string, raw: string)
    requires !EndsWith(key, ".dry_run") && !NumericKey(key)
    ensures Convert(key, raw) == Ok(VStr(raw))
  {
  }

  /** The text before the first dot, as `key.split(".")[0]`; the whole key when it has none. */
  function Prefix(key: string): (r: string)
    ensures !Contains(r, ".")
    ensures Contains(key, ".") ==> StartsWith(key, r + ".")
    ensures !Contains(key, ".") ==> r == key
  {
    var parts := Split(key, ".");
    match Find(key, ".")
    case None => parts[0]
    case Some(i) =>
      assert parts[0] == key[..i];
      assert key[i..][..1] == ".";
      assert key[..i + 1] == key[..i] + ".";
      parts[0]
  }

  /** The category `set_config` infers: the prefix before the first dot, else `general`. */
  function Category(key: string): (r: string)
    ensures Contains(key, ".") ==> StartsWith(key, r + ".") && !Contains(r, ".")
    ensures !Contains(key, ".") ==> r == "general"
  {
    if Contains(key, ".") then Prefix(key) else "general"
  }

  /** The database key that records a finished migration. */
  const MigratedFlag := "system.migrated_from_env"

  /** The settings copied from the environment by the migration: database key, variable. */
  const EnvMappings: seq<(string, string)> := [
    ("jira.base_url", "JIRA_BASE_URL"),
    ("jira.api_token", "JIRA_API_TOKEN"),
    ("jira.user_email", "JIRA_USER_EMAIL"),
    ("jira.organization_id", "JIRA_ORGANISATION_ID"),
    ("jira.tempo_api_token", "TEMPO_API_TOKEN"),
    ("solidtime.base_url", "SOLIDTIME_BASE_URL"),
    ("solidtime.api_token", "SOLIDTIME_API_TOKEN"),
    ("solidtime.organization_id", "SOLIDTIME_ORGANIZATION_ID"),
    ("sync.days_back", "SYNC_DAYS_BACK"),
    ("sync.dry_run", "DRY_RUN"),
    ("sync.log_level", "LOG_LEVEL"),
    ("sync.filter_user_email", "FILTER_USER_EMAIL"),
    ("sync.data_dir", "DATA_DIR"),
    ("sync.log_dir", "LOG_DIR"),
    ("sync.schedule", "SYNC_SCHEDULE"),
    ("sync.health_check_schedule", "HEALTH_CHECK_SCHEDULE"),
    ("monitoring.alert_threshold_seconds", "SYNC_ALERT_THRESHOLD"),
    ("monitoring.sync_start_hour", "SYNC_START_HOUR"),
    ("monitoring.sync_end_hour", "SYNC_END_HOUR"),
    ("monitoring.telegram_bot_token", "TELEGRAM_BOT_TOKEN"),
    ("monitoring.telegram_chat_id", "TELEGRAM_CHAT_ID"),
    ("monitoring.teams_webhook_url", "TEAMS_WEBHOOK_URL")]

  /** The database after a migration run, and the error that stopped it, if one did. */
  datatype Migration = Migration(db: Db, failure: Option<string>)

  /** Copying one setting: nothing when its variable is unset, else the converted value. */
  function MigrateOne(db: Db, env: Env, m: (string, string)): (r: Migration)
    ensures m.1 !in env ==> r == Migration(db, None)
    ensures r.failure.None? ==> r.db.Keys == db.Keys + (if m.1 in env then {m.0} else {})
  {
    if m.1 !in env then Migration(db, None)
    else
      match Convert(m.0, env[m.1])
      case Err(e) => Migration(db, Some(e))
      case Ok(v) =>
        Migration(db[m.0 := Entry(v, Prefix(m.0), "Migrated from environment variable " + m.1)], None)
  }

  /** The settings copied in order; the first conversion error stops the run, earlier writes stay. */
  function MigrateAll(db: Db, env: Env, ms: seq<(string, string)>): (r: Migration)
    decreases |ms|
  {
    if ms == [] then Migration(db, None)
    else
      var before := MigrateAll(db, env, ms[..|ms| - 1]);
      if before.failure.Some? then before else MigrateOne(before.db, env, ms[|ms| - 1])
  }

  /** The project filter list written when `FILTER_PROJECT_KEYS` is non-empty. */
  function MigrateProjectKeys(db: Db, env: Env): (r: Db)
    ensures "FILTER_PROJECT_KEYS" !in env || env["FILTER_PROJECT_KEYS"] == "" ==> r == db
    ensures "FILTER_PROJECT_KEYS" in env && env["FILTER_PROJECT_KEYS"] != "" ==>
      && "sync.filter_project_keys" in r
      && r["sync.filter_project_keys"].value == VList(StrippedItems(Split(env["FILTER_PROJECT_KEYS"], ",")))
      && r["sync.filter_project_keys"].category == "sync"
    ensures forall k :: k != "sync.filter_project_keys" ==> (k in r <==> k in db) && (k in db ==> r[k] == db[k])
  {
    var raw := if "FILTER_PROJECT_KEYS" in env then env["FILTER_PROJECT_KEYS"] else "";
    if raw == "" then db
    else
      db["sync.filter_project_keys" := Entry(VList(StrippedItems(Split(raw, ","))), "sync",
                                             "Migrated from FILTER_PROJECT_KEYS environment variable")]
  }

  /** The whole migration, guarded by the flag it sets at the end. */
  function Migrate(db: Db, env: Env): (r: Migration)
    ensures Truthy(DbGet(db, MigratedFlag, VBool(false))) ==> r == Migration(db, None)
    ensures r.failure.None? ==> MigratedFlag in r.db && Truthy(r.db[MigratedFlag].value)
  {
    if Truthy(DbGet(db, MigratedFlag, VBool(false))) then Migration(db, None)
    else
      var m := MigrateAll(db, env, EnvMappings);
      if m.failure.Some? then m
      else
        var d := MigrateProjectKeys(m.db, env);
        Migration(d[MigratedFlag := Entry(VBool(true), "system", "Environment variable migration completed")], None)
  }

  /** Once the flag is set, a migration changes nothing. */
  lemma MigratedIsNoOp(db: Db, env: Env)
    requires MigratedFlag in db && Truthy(db[MigratedFlag].value)
    ensures Migrate(db, env) == Migration(db, None)
  {
  }

  /** A run that finishes sets the flag, so running again is a no-op. */
  lemma MigrationRunsOnce(db: Db, env: Env, later: Env)
    requires Migrate(db, env).failure.None?
    ensures MigratedFlag in Migrate(db, env).db
    ensures Truthy(Migrate(db, env).db[MigratedFlag].value)
    ensures Migrate(Migrate(db, env).db, later) == Migration(Migrate(db, env).db, None)
  {
  }

  /** A run stops with an error only when a variable of a numeric setting is not an integer. */
  lemma {:induction false} MigrationFailsOnlyOnNumbers(db: Db, env: Env, ms: seq<(string, string)>)
    requires MigrateAll(db, env, ms).failure.Some?
    ensures exists k :: 0 <= k < |ms| && ms[k].1 in env && NumericKey(ms[k].0)
                        && ParseInt(env[ms[k].1]).None?
    decreases |ms|
  {
    var before := MigrateAll(db, env, ms[..|ms| - 1]);
    var last := |ms| - 1;
    if before.failure.Some? {
      MigrationFailsOnlyOnNumbers(db, env, ms[..last]);
      var k :| 0 <= k < last && ms[..last][k].1 in env && NumericKey(ms[..last][k].0)
               && ParseInt(env[ms[..last][k].1]).None?;
      assert ms[k] == ms[..last][k];
    } else {
      assert ms[last].1 in env && NumericKey(ms[last].0) && ParseInt(env[ms[last].1]).None?;
    }
  }

  /**
    * What a successful run leaves: every key is either untouched or one of the settings,
    * holding the converted value of its variable.
    */
  lemma {:induction false} MigrateAllWrites(db: Db, env: Env, ms: seq<(string, string)>)
    requires MigrateAll(db, env, ms).failure.None?
    ensures forall k :: k in MigrateAll(db, env, ms).db ==>
              (k in db && MigrateAll(db, env, ms).db[k] == db[k])
              || (exists i :: 0 <= i < |ms| && ms[i].0 == k && ms[i].1 in env
                              && Convert(k, env[ms[i].1]) == Ok(MigrateAll(db, env, ms).db[k].value))
    decreases |ms|
  {
    if ms != [] {
      var last := |ms| - 1;
      var before := MigrateAll(db, env, ms[..last]);
      MigrateAllWrites(db, env, ms[..last]);
      var after := MigrateAll(db, env, ms).db;
      forall k | k in after
        ensures (k in db && after[k] == db[k])
                || (exists i :: 0 <= i < |ms| && ms[i].0 == k && ms[i].1 in env
                                && Convert(k, env[ms[i].1]) == Ok(after[k].value))
      {
        if ms[last].1 in env && k == ms[last].0 {
          assert Convert(k, env[ms[last].1]) == Ok(after[k].value);
        } else {
          assert after[k] == before.db[k];
          if !(k in db && before.db[k] == db[k]) {
            var i :| 0 <= i < last && ms[..last][i].0 == k && ms[..last][i].1 in env
                     && Convert(k, env[ms[..last][i].1]) == Ok(before.db[k].value);
            assert ms[i] == ms[..last][i];
          }
        }
      }
    }
  }

  /** A run that finishes has stored every setting whose variable is set. */
  lemma {:induction false} MigrateAllCopiesKeys(db: Db, env: Env, ms: seq<(string, string)>, i: nat)
    requires MigrateAll(db, env, ms).failure.None?
    requires i < |ms| && ms[i].1 in env
    ensures ms[i].0 in MigrateAll(db, env, ms).db
    decreases |ms|
  {
    var last := |ms| - 1;
    var before := MigrateAll(db, env, ms[..last]);
    assert before.failure.None?;
    if i < last {
      assert ms[..last][i] == ms[i];
      MigrateAllCopiesKeys(db, env, ms[..last], i);
    }
  }

  /**
    * When the settings' keys are distinct, a run that finishes has stored each set
    * variable's converted value, under the key's prefix as category.
    */
  lemma {:induction false} MigrateAllCopies(db: Db, env: Env, ms: seq<(string, string)>, i: nat)
    requires forall a, b :: 0 <= a < b < |ms| ==> ms[a].0 != ms[b].0
    requires MigrateAll(db, env, ms).failure.None?
    requires i < |ms| && ms[i].1 in env
    ensures ms[i].0 in MigrateAll(db, env, ms).db
    ensures Convert(ms[i].0, env[ms[i].1]) == Ok(MigrateAll(db, env, ms).db[ms[i].0].value)
    ensures MigrateAll(db, env, ms).db[ms[i].0].category == Prefix(ms[i].0)
    decreases |ms|
  {
    var last := |ms| - 1;
    var before := MigrateAll(db, env, ms[..last]);
    assert before.failure.None?;
    if i < last {
      assert ms[..last][i] == ms[i];
      MigrateAllCopies(db, env, ms[..last], i);
      assert ms[i].0 != ms[last].0;
    }
  }

  /** The settings copied by the migration have distinct keys. */
  lemma EnvMappingsDistinct()
    ensures forall a, b :: 0 <= a < b < |EnvMappings| ==> EnvMappings[a].0 != EnvMappings[b].0
  {
  }

  /** A first migration that finishes holds every set variable's converted value. */
  lemma MigrationCopiesEnvironment(db: Db, env: Env, i: nat)
    requires !Truthy(DbGet(db, MigratedFlag, VBool(false)))
    requires Migrate(db, env).failure.None?
    requires i < |EnvMappings| && EnvMappings[i].1 in env
    ensures EnvMappings[i].0 in Migrate(db, env).db
    ensures Convert(EnvMappings[i].0, env[EnvMappings[i].1]) == Ok(Migrate(db, env).db[EnvMappings[i].0].value)
  {
    var k := EnvMappings[i].0;
    var m := MigrateAll(db, env, EnvMappings);
    EnvMappingsDistinct();
    EnvMappingsReserved();
    MigrateAllCopies(db, env, EnvMappings, i);
    var d := MigrateProjectKeys(m.db, env);
    assert k in d && d[k] == m.db[k];
    assert Migrate(db, env).db == d[MigratedFlag := Entry(VBool(true), "system", "Environment variable migration completed")];
  }

  /** None of the settings is the project filter or the migration flag, both written after the loop. */
  lemma EnvMappingsReserved()
    ensures forall i :: 0 <= i < |EnvMappings| ==>
              EnvMappings[i].0 != "sync.filter_project_keys" && EnvMappings[i].0 != MigratedFlag
  {
  }

  /** A set variable of a numeric setting that `int()` rejects makes the run stop with an error. */
  lemma {:induction false} BadNumberStopsMigration(db: Db, env: Env, ms: seq<(string, string)>, k: nat)
    requires k < |ms| && ms[k].1 in env
    requires NumericKey(ms[k].0) && !EndsWith(ms[k].0, ".dry_run") && ParseInt(env[ms[k].1]).None?
    ensures MigrateAll(db, env, ms).failure.Some?
    decreases |ms|
  {
    var last := |ms| - 1;
    if k < last {
      assert ms[..last][k] == ms[k];
      BadNumberStopsMigration(db, env, ms[..last], k);
    }
  }

  /** The configuration manager over its database. */
  class ConfigManager {
    var db: Db
    const env: Env

    constructor(stored: Db, env: Env)
      ensures db == stored && this.env == env
    {
      db := stored;
      this.env := env;
    }

    /**
      * `get_config(key, default)`: a database value that is not `null` wins; otherwise
      * the converted environment variable; otherwise the default.
      */
    function GetConfig(key: string, default: Value): (r: Result<Value>)
      reads this
      ensures DbGet(db, key, VNone) != VNone ==> r == Ok(db[key].value)
      ensures DbGet(db, key, VNone) == VNone && EnvKey(key) !in env ==> r == Ok(default)
      ensures DbGet(db, key, VNone) == VNone && EnvKey(key) in env ==> r == Convert(key, env[EnvKey(key)])
    {
      var stored := DbGet(db, key, VNone);
      if stored != VNone then Ok(stored)
      else
        var name := EnvKey(key);
        if name in env then Convert(key, env[name]) else Ok(default)
    }

    /** `set_config(key, value, category)`: one row written, the category inferred when not given. */
    method SetConfig(key: string, value: Value, category: Option<string>)
      modifies this
      ensures db == old(db)[key := Entry(value, category.GetOr(Category(key)), "")]
      ensures value != VNone ==> forall d :: GetConfig(key, d) == Ok(value)
      ensures forall k, d :: k != key ==> GetConfig(k, d) == old(GetConfig(k, d))
    {
      var c := if category.Some? then category.value else Category(key);
      db := db[key := Entry(value, c, "")];
    }

    /**
      * `_migrate_env_to_db`: unless the flag is already set, copies each set variable in
      * order, then the project filter list, then sets the flag.  A variable `int()`
      * rejects stops the run with that error; what was written before it stays.
      */
    method MigrateEnvToDb() returns (failure: Option<string>)
      modifies this
      ensures db == Migrate(old(db), env).db
      ensures failure == Migrate(old(db), env).failure
    {
      if Truthy(DbGet(db, MigratedFlag, VBool(false))) {
        return None;
      }
      failure := CopySettings(EnvMappings);
      if failure.Some? {
        return;
      }
      db := MigrateProjectKeys(db, env);
      db := db[MigratedFlag := Entry(VBool(true), "system", "Environment variable migration completed")];
    }

    /** The loop of the migration over the settings `ms`, in order. */
    method CopySettings(ms: seq<(string, string)>) returns (failure: Option<string>)
      modifies this
      ensures Migration(db, failure) == MigrateAll(old(db), env, ms)
    {
      ghost var start := db;
      var i := 0;
      while i < |ms|
        invariant 0 <= i <= |ms|
        invariant MigrateAll(start, env, ms[..i]) == Migration(db, None)
      {
        var m := ms[i];
        assert ms[..i + 1][..i] == ms[..i];
        if m.1 in env {
          var v := Convert(m.0, env[m.1]);
          if v.Err? {
            assert MigrateAll(start, env, ms[..i + 1]) == Migration(db, Some(v.error));
            MigratePrefixStops(start, env, ms, i + 1);
            return Some(v.error);
          }
          db := db[m.0 := Entry(v.value, Prefix(m.0), "Migrated from environment variable " + m.1)];
        }
        i := i + 1;
      }
      assert ms[..i] == ms;
      return None;
    }
  }

  /** A failure in a prefix of the settings is the failure of the whole run. */
  lemma {:induction false} MigratePrefixStops(db: Db, env: Env, ms: seq<(string, string)>, n: nat)
    requires n <= |ms| && MigrateAll(db, env, ms[..n]).failure.Some?
    ensures MigrateAll(db, env, ms) == MigrateAll(db, env, ms[..n])
    decreases |ms| - n
  {
    if n < |ms| {
      assert ms[..n + 1][..n] == ms[..n];
      MigratePrefixStops(db, env, ms, n + 1);
    } else {
      assert ms[..n] == ms;
    }
  }
}
