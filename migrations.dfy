/** Schema migrations: the table of migration scripts and the selection of the scripts between
    two versions. A script's DDL is opaque; what the model keeps of it is the write it makes to
    the `schema_version` table, which is what later version reads depend on. */
module Migrations {
  import opened Wrappers

  const SCHEMA_VERSION: int := 2

  /** What a script does to the `schema_version` table. */
  datatype VersionWrite =
    | InsertVersion(v: int)   // `INSERT INTO schema_version (version) VALUES (v)`
    | SetAllVersions(v: int)  // `UPDATE schema_version SET version = v`

  /** A migration script: its version and its `schema_version` write. Script 1 also creates the
      `schema_version` table (`CREATE TABLE IF NOT EXISTS`). */
  datatype Migration = Migration(version: int, createsVersionTable: bool, write: VersionWrite)

  /** `MIGRATIONS`. */
  const MIGRATIONS: map<int, Migration> :=
    map[1 := Migration(1, true, InsertVersion(1)),
        2 := Migration(2, false, SetAllVersions(2))]

  /** The table's keys are exactly 1 .. SCHEMA_VERSION, and each script carries its own key. */
  lemma MigrationsCoverSchema()
    ensures forall v :: v in MIGRATIONS <==> 1 <= v <= SCHEMA_VERSION
    ensures forall v :: v in MIGRATIONS ==> MIGRATIONS[v].version == v
  {
  }

  /** The scripts for versions `fromVersion + 1 .. toVersion` that the table has, in ascending version. */
  function MigrationsBetween(fromVersion: int, toVersion: int): (r: seq<Migration>)
    decreases toVersion - fromVersion
  {
    if toVersion <= fromVersion then []
    else MigrationsBetween(fromVersion, toVersion - 1) + (if toVersion in MIGRATIONS then [MIGRATIONS[toVersion]] else [])
  }

  /** `get_migration_sql`: a loop over `range(fromVersion + 1, toVersion + 1)` appending the scripts present. */
  method GetMigrationSql(fromVersion: int, toVersion: int) returns (statements: seq<Migration>)
    ensures statements == MigrationsBetween(fromVersion, toVersion)
  {
    statements := [];
    var version := fromVersion + 1;
    while version < toVersion + 1
      invariant fromVersion + 1 <= version
      invariant version <= toVersion + 1 || toVersion < fromVersion + 1
      invariant statements == MigrationsBetween(fromVersion, if version - 1 <= toVersion then version - 1 else toVersion)
      decreases toVersion + 1 - version
    {
      if version in MIGRATIONS {
        statements := statements + [MIGRATIONS[version]];
      }
      version := version + 1;
    }
  }

  /** Nothing is selected when `fromVersion >= toVersion`. */
  lemma NoMigrationsWhenCurrent(fromVersion: int, toVersion: int)
    requires fromVersion >= toVersion
    ensures MigrationsBetween(fromVersion, toVersion) == []
  {
  }

  /** Selecting `a .. b` and then `b .. c` selects `a .. c`. */
  lemma {:induction false} MigrationsBetweenConcat(a: int, b: int, c: int)
    requires a <= b <= c
    ensures MigrationsBetween(a, b) + MigrationsBetween(b, c) == MigrationsBetween(a, c)
    decreases c - b
  {
    if c > b {
      MigrationsBetweenConcat(a, b, c - 1);
    }
  }

  /** A selected script is a table entry for a version in the range, and every such entry is
      selected, in strictly ascending version order. */
  lemma {:induction false} MigrationsBetweenExactly(fromVersion: int, toVersion: int)
    ensures forall m :: m in MigrationsBetween(fromVersion, toVersion) <==>
              exists v :: v in MIGRATIONS && fromVersion < v <= toVersion && MIGRATIONS[v] == m
    ensures forall i, j :: 0 <= i < j < |MigrationsBetween(fromVersion, toVersion)| ==>
              MigrationsBetween(fromVersion, toVersion)[i].version < MigrationsBetween(fromVersion, toVersion)[j].version
    ensures forall i :: 0 <= i < |MigrationsBetween(fromVersion, toVersion)| ==>
              fromVersion < MigrationsBetween(fromVersion, toVersion)[i].version <= toVersion
    decreases toVersion - fromVersion
  {
    MigrationsCoverSchema();
    if toVersion > fromVersion {
      MigrationsBetweenExactly(fromVersion, toVersion - 1);
    }
  }

  /** Migrating a fresh database to the current schema selects one script per version. */
  lemma AllMigrationsFromZero()
    ensures MigrationsBetween(0, SCHEMA_VERSION) == [MIGRATIONS[1], MIGRATIONS[2]]
    ensures |MigrationsBetween(0, SCHEMA_VERSION)| == SCHEMA_VERSION
  {
    assert MigrationsBetween(0, 1) == [MIGRATIONS[1]];
  }

  /** `SELECT version FROM schema_version ORDER BY version DESC LIMIT 1`, with 0 for a missing
      table (the `OperationalError`) or an empty one. */
  function SchemaVersion(table: Option<seq<int>>): (v: int)
    ensures table.None? || table.value == [] ==> v == 0
    ensures table.Some? && table.value != [] ==>
              v in table.value && forall x :: x in table.value ==> x <= v
  {
    if table.None? || table.value == [] then 0 else MaxOf(table.value)
  }

  function MaxOf(s: seq<int>): (m: int)
    requires s != []
    ensures m in s && forall x :: x in s ==> x <= m
  {
    if |s| == 1 then s[0]
    else
      var rest := MaxOf(s[1..]);
      assert forall x :: x in s ==> x == s[0] || x in s[1..];
      if s[0] >= rest then s[0] else rest
  }

  /** The effect of running one script on the `schema_version` table, or the error
      `executescript` raises: inserting an existing version violates the primary key, as does
      setting two rows to one version; the update needs the table. */
  function RunScript(table: Option<seq<int>>, m: Migration): (r: Result<Option<seq<int>>, string>)
    ensures r.Ok? ==> r.value.Some?
  {
    var existing := if table.Some? then Some(table.value) else if m.createsVersionTable then Some([]) else None;
    match m.write
    case InsertVersion(v) =>
      if existing.None? then Err("no such table: schema_version")
      else if v in existing.value then Err("UNIQUE constraint failed: schema_version.version")
      else Ok(Some(existing.value + [v]))
    case SetAllVersions(v) =>
      if existing.None? then Err("no such table: schema_version")
      else if |existing.value| > 1 then Err("UNIQUE constraint failed: schema_version.version")
      else Ok(Some(if existing.value == [] then [] else [v]))
  }

  /** Running scripts in order, stopping at the first error. */
  function RunScripts(table: Option<seq<int>>, ms: seq<Migration>): (r: Result<Option<seq<int>>, string>)
    decreases |ms|
  {
    if ms == [] then Ok(table)
    else match RunScript(table, ms[0])
      case Err(e) => Err(e)
      case Ok(t) => RunScripts(t, ms[1..])
  }

  /** The `schema_version` table after running scripts in order: each script that fails leaves
      the table as it was and stops the run. */
  function AppliedScripts(table: Option<seq<int>>, ms: seq<Migration>): (r: Option<seq<int>>)
    ensures RunScripts(table, ms).Ok? ==> r == RunScripts(table, ms).value
    decreases |ms|
  {
    if ms == [] then table
    else match RunScript(table, ms[0])
      case Err(_) => table
      case Ok(t) => AppliedScripts(t, ms[1..])
  }

  /** The scripts `_run_migrations` runs on a table. */
  function PendingMigrations(table: Option<seq<int>>): (r: seq<Migration>)
    ensures SchemaVersion(table) >= SCHEMA_VERSION ==> r == []
  {
    var current := SchemaVersion(table);
    if current < SCHEMA_VERSION then MigrationsBetween(current, SCHEMA_VERSION) else []
  }

  /** `_run_migrations`: the pending scripts run only when the stored version is behind. */
  function RunMigrations(table: Option<seq<int>>): (r: Result<Option<seq<int>>, string>)
    ensures SchemaVersion(table) >= SCHEMA_VERSION ==> r == Ok(table)
  {
    var current := SchemaVersion(table);
    if current < SCHEMA_VERSION then RunScripts(table, MigrationsBetween(current, SCHEMA_VERSION))
    else Ok(table)
  }

  /** From a database without a version table, with an empty one, or with a single version,
      migrating succeeds and leaves the stored version at least SCHEMA_VERSION (exactly it when
      it was behind). */
  lemma RunMigrationsReachesSchemaVersion(table: Option<seq<int>>)
    requires table.None? || |table.value| == 0 || (|table.value| == 1 && table.value[0] >= 1)
    ensures RunMigrations(table).Ok?
    ensures SchemaVersion(table) < SCHEMA_VERSION ==> SchemaVersion(RunMigrations(table).value) == SCHEMA_VERSION
    ensures SchemaVersion(table) >= SCHEMA_VERSION ==> RunMigrations(table).value == table
  {
    var current := SchemaVersion(table);
    if current < SCHEMA_VERSION {
      if table.None? || table.value == [] {
        AllMigrationsFromZero();
        var t1 := RunScript(table, MIGRATIONS[1]);
        assert [] + [1] == [1];
        assert t1 == Ok(Some([1]));
        var t2 := RunScript(t1.value, MIGRATIONS[2]);
        assert t2 == Ok(Some([2]));
        assert RunScripts(table, [MIGRATIONS[1], MIGRATIONS[2]]) == RunScripts(t1.value, [MIGRATIONS[2]]);
        assert RunScripts(t1.value, [MIGRATIONS[2]]) == RunScripts(t2.value, []);
      } else {
        assert current == table.value[0] == 1;
        assert MigrationsBetween(1, 2) == [MIGRATIONS[2]];
        var t2 := RunScript(table, MIGRATIONS[2]);
        assert t2 == Ok(Some([2]));
        assert RunScripts(table, [MIGRATIONS[2]]) == RunScripts(t2.value, []);
      }
    }
  }
}
