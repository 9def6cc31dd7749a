/** A migration: a class whose `up()` and `down()` describe schema changes through four
    primitives (create, table, drop, sql). The body of `up()`/`down()` is modelled as the
    list of primitive calls it makes, each carrying the table its builder callback produced. */
module MigrationUnit {
  import opened Wrappers
  import opened Errors
  import opened Strings
  import opened Schema
  import opened Platforms
  import opened Connection
  import opened Versions

  /** One primitive call of a migration body. */
  datatype Step =
    | CreateStep(table: TableDef)
    | TableStep(table: TableDef)
    | DropStep(tableName: string)
    | SqlStep(sql: string, pgsql: Option<string>, sqlite: Option<string>)

  /** `sql()`: the PostgreSQL or SQLite variant when one is given for the running dialect,
      else the generic statement. */
  function SqlChoice(p: Platform, sql: string, pgsql: Option<string>, sqlite: Option<string>): (r: string)
    ensures r == sql || (p == PostgreSQL && pgsql == Some(r)) || (p == SQLite && sqlite == Some(r))
    ensures p == MySQL ==> r == sql
  {
    if Name(p) == "pgsql" && pgsql.Some? then pgsql.value
    else if Name(p) == "sqlite3" && sqlite.Some? then sqlite.value
    else sql
  }

  /** A given variant for the running dialect always wins, and the variant written for the
      other dialect never matters. */
  lemma SqlChoiceVariants(p: Platform, sql: string, pgsql: Option<string>, sqlite: Option<string>)
    ensures p == PostgreSQL && pgsql.Some? ==> SqlChoice(p, sql, pgsql, sqlite) == pgsql.value
    ensures p == SQLite && sqlite.Some? ==> SqlChoice(p, sql, pgsql, sqlite) == sqlite.value
    ensures SqlChoice(p, sql, pgsql, sqlite)
      == SqlChoice(p, sql, if p == PostgreSQL then pgsql else None, if p == SQLite then sqlite else None)
  {
  }

  /** The statements one primitive issues, in order, or the error raised while building
      them (before any of them runs). */
  function StepStatements(p: Platform, step: Step): (r: Result<seq<string>, Error>)
    ensures r.Err? ==> step.CreateStep? || step.TableStep?
  {
    match step
    case CreateStep(t) =>
      (match CreateTableSql(p, t)
       case Err(e) => Err(e)
       case Ok(sql) => Ok([sql] + IndexStatements(t.name, t.indexes) + OptionToSeq(CreateSequence(p, t))))
    case TableStep(t) => AlterStatements(p, t.name, t.operations)
    case DropStep(tableName) => Ok([DropTable(tableName)] + OptionToSeq(DropSequence(p, tableName)))
    case SqlStep(sql, pgsql, sqlite) => Ok([SqlChoice(p, sql, pgsql, sqlite)])
  }

  /** `create()` fails exactly when a column type is unknown; otherwise it issues the
      CREATE TABLE statement, then one statement per index, then a sequence statement
      exactly when the dialect has sequences and the table a serial primary column. */
  lemma CreateStepSpec(p: Platform, t: TableDef)
    ensures StepStatements(p, CreateStep(t)).Err?
      <==> exists i :: 0 <= i < |t.columns| && !IsKnownType(t.columns[i].abstractType)
    ensures StepStatements(p, CreateStep(t)).Ok? ==>
      var stmts := StepStatements(p, CreateStep(t)).value;
      && |stmts| == 1 + |t.indexes| + (if p != MySQL && FirstSerialPrimary(t.columns).Some? then 1 else 0)
      && StartsWith(stmts[0], "CREATE TABLE " + t.name + " (\n    ")
      && stmts[1..1 + |t.indexes|] == IndexStatements(t.name, t.indexes)
      && stmts[1 + |t.indexes|..] == OptionToSeq(CreateSequence(p, t))
  {
    ColumnDefinitionsSpec(p, t.columns);
    var c := CreateTableSql(p, t);
    if c.Ok? {
      var indexes := IndexStatements(t.name, t.indexes);
      var sequence := OptionToSeq(CreateSequence(p, t));
      var stmts := [c.value] + indexes + sequence;
      assert StepStatements(p, CreateStep(t)) == Ok(stmts);
      assert stmts[0] == CreateTableText(p, t.name, CreateTableItems(p, t).value);
      assert stmts[1..1 + |t.indexes|] == indexes;
      assert stmts[1 + |t.indexes|..] == sequence;
    }
  }

  /** `drop()` issues the DROP TABLE statement, then the sequence drop exactly for
      `dtb_`/`mtb_` tables in the dialects with sequences. */
  lemma DropStepSpec(p: Platform, tableName: string)
    ensures StepStatements(p, DropStep(tableName)).Ok?
    ensures StepStatements(p, DropStep(tableName)).value[0] == DropTable(tableName)
    ensures |StepStatements(p, DropStep(tableName)).value| == 2 <==> p != MySQL && HasEccubePrefix(tableName)
    ensures |StepStatements(p, DropStep(tableName)).value| <= 2
  {
  }

  /** The outcome of a primitive whose statements were built as `built`: a build error
      runs nothing; otherwise the statements run in order. */
  function RunBuilt(rejected: set<string>, db: DbState, built: Result<seq<string>, Error>): (r: Run)
    requires ValidState(db)
    ensures ValidState(r.db) && r.db.versions == db.versions && db.log <= r.db.log
  {
    match built
    case Err(e) => Run(db, Fail(e))
    case Ok(stmts) => ExecAll(rejected, db, stmts)
  }

  /** Primitives in order; the first that raises ends the run, and what ran before stays
      done. */
  function RunAllBuilt(rejected: set<string>, db: DbState, built: seq<Result<seq<string>, Error>>): (r: Run)
    requires ValidState(db)
    ensures ValidState(r.db) && r.db.versions == db.versions && db.log <= r.db.log
  {
    if built == [] then Run(db, Pass)
    else
      var r := RunAllBuilt(rejected, db, built[..|built| - 1]);
      if r.outcome.Fail? then r else RunBuilt(rejected, r.db, built[|built| - 1])
  }

  function RunStep(rejected: set<string>, db: DbState, p: Platform, step: Step): (r: Run)
    requires ValidState(db)
    ensures ValidState(r.db) && r.db.versions == db.versions
  {
    RunBuilt(rejected, db, StepStatements(p, step))
  }

  function StepResults(p: Platform, steps: seq<Step>): seq<Result<seq<string>, Error>> {
    seq(|steps|, i requires 0 <= i < |steps| => StepStatements(p, steps[i]))
  }

  /** A migration body. */
  function RunSteps(rejected: set<string>, db: DbState, p: Platform, steps: seq<Step>): (r: Run)
    requires ValidState(db)
    ensures ValidState(r.db) && r.db.versions == db.versions
  {
    RunAllBuilt(rejected, db, StepResults(p, steps))
  }

  /** When every primitive builds, running them is running all their statements,
      concatenated in order. */
  lemma {:induction false} RunAllCompiled(rejected: set<string>, db: DbState, built: seq<Result<seq<string>, Error>>)
    requires ValidState(db)
    requires Collect(built).Ok?
    ensures RunAllBuilt(rejected, db, built) == ExecAll(rejected, db, Flatten(Collect(built).value))
  {
    if built != [] {
      var n := |built| - 1;
      CollectExtend(built, n);
      assert built[..n + 1] == built;
      RunAllCompiled(rejected, db, built[..n]);
      var lists := Collect(built[..n]).value;
      FlattenAppend(lists, built[n].value);
      ExecAllAppend(rejected, db, Flatten(lists), built[n].value);
    }
  }

  /** When every primitive of a body builds, the body runs all their statements in order. */
  lemma RunStepsCompiled(rejected: set<string>, db: DbState, p: Platform, steps: seq<Step>)
    requires ValidState(db)
    requires Collect(StepResults(p, steps)).Ok?
    ensures RunSteps(rejected, db, p, steps) == ExecAll(rejected, db, Flatten(Collect(StepResults(p, steps)).value))
  {
    RunAllCompiled(rejected, db, StepResults(p, steps));
  }

  /** The statements a body sends, in order, when every primitive builds; otherwise the
      first build failure. */
  function Script(p: Platform, steps: seq<Step>): (r: Result<seq<string>, Error>)
    ensures r.Err? <==> exists i :: 0 <= i < |steps| && StepStatements(p, steps[i]).Err?
  {
    var built := StepResults(p, steps);
    CollectSpec(built);
    assert forall i :: 0 <= i < |steps| ==> built[i] == StepStatements(p, steps[i]);
    if Collect(built).Ok? then Ok(Flatten(Collect(built).value)) else Err(Collect(built).error)
  }

  /** A body completes exactly when every primitive builds and no statement of its script
      is refused; it then has logged exactly the script. When every primitive builds,
      running the body is running its script. */
  lemma RunStepsScript(rejected: set<string>, db: DbState, p: Platform, steps: seq<Step>)
    requires ValidState(db)
    ensures Script(p, steps).Ok? ==> RunSteps(rejected, db, p, steps) == ExecAll(rejected, db, Script(p, steps).value)
    ensures RunSteps(rejected, db, p, steps).outcome.Pass?
      <==> Script(p, steps).Ok? && Accepted(rejected, Script(p, steps).value)
    ensures RunSteps(rejected, db, p, steps).outcome.Pass? ==>
      RunSteps(rejected, db, p, steps).db.log == db.log + Script(p, steps).value
  {
    if Script(p, steps).Ok? {
      RunStepsCompiled(rejected, db, p, steps);
      ExecAllCompletes(rejected, db, Script(p, steps).value);
    } else {
      RunAllBuildFails(rejected, db, StepResults(p, steps));
    }
  }

  /** A run whose primitives do not all build does not complete. */
  lemma {:induction false} RunAllBuildFails(rejected: set<string>, db: DbState, built: seq<Result<seq<string>, Error>>)
    requires ValidState(db) && Collect(built).Err?
    ensures RunAllBuilt(rejected, db, built).outcome.Fail?
  {
    var n := |built| - 1;
    CollectExtend(built, n);
    assert built[..n + 1] == built;
    if Collect(built[..n]).Err? {
      RunAllBuildFails(rejected, db, built[..n]);
    }
  }

  /** A primitive that raises ends the run: later primitives change nothing. */
  lemma {:induction false} RunAllAbort(rejected: set<string>, db: DbState, built: seq<Result<seq<string>, Error>>, k: nat)
    requires ValidState(db)
    requires k <= |built| && RunAllBuilt(rejected, db, built[..k]).outcome.Fail?
    ensures RunAllBuilt(rejected, db, built) == RunAllBuilt(rejected, db, built[..k])
    decreases |built|
  {
    if k < |built| {
      var n := |built| - 1;
      assert built[..n][..k] == built[..k];
      RunAllAbort(rejected, db, built[..n], k);
    } else {
      assert built[..k] == built;
    }
  }

  /** One more primitive after a prefix that completed. */
  lemma RunAllBuiltNext(rejected: set<string>, db: DbState, built: seq<Result<seq<string>, Error>>, i: nat)
    requires ValidState(db)
    requires i < |built| && RunAllBuilt(rejected, db, built[..i]).outcome.Pass?
    ensures RunAllBuilt(rejected, db, built[..i + 1]) == RunBuilt(rejected, RunAllBuilt(rejected, db, built[..i]).db, built[i])
  {
    assert built[..i + 1][..i] == built[..i];
  }

  // ---------------------------------------------------------------------------
  // Versions from class names
  // ---------------------------------------------------------------------------

  /** The class name without its namespace: everything after the last backslash. */
  function ShortName(className: string): (r: string)
    ensures '\\' !in r
    ensures |r| <= |className| && r == className[|className| - |r|..]
    ensures |r| < |className| ==> className[|className| - |r| - 1] == '\\'
  {
    if className == [] || className[|className| - 1] == '\\' then ""
    else ShortName(className[..|className| - 1]) + [className[|className| - 1]]
  }

  /** `preg_match('/^Version(\d+)/')`: the maximal run of digits right after a leading
      `Version`, when there is at least one. */
  function VersionOf(name: string): (r: Option<Version>)
    ensures r.Some? <==> StartsWith(name, "Version") && |name| > 7 && IsDigit(name[7])
    ensures r.Some? ==> StartsWith(name, "Version" + r.value)
    ensures r.Some? ==> |name| == 7 + |r.value| || !IsDigit(name[7 + |r.value|])
  {
    if StartsWith(name, "Version") then
      var d := LeadingDigits(name[7..]);
      assert name[..7 + |d|] == "Version" + d;
      if d == "" then None else Some(d)
    else None
  }

  /** The version spelled in a name is read back, whatever follows it that is not a digit. */
  lemma VersionOfRoundTrip(v: Version, suffix: string)
    requires v != "" && (suffix == [] || !IsDigit(suffix[0]))
    ensures VersionOf("Version" + v + suffix) == Some(v)
  {
    var name := "Version" + v + suffix;
    assert name[7..] == v + suffix;
    var r := VersionOf(name);
    assert r.Some? by { assert name[7] == v[0]; }
    assert name[7..7 + |v|] == v;
  }

  /** `getVersion()`: the digits after `Version` in the short class name, or the short
      name itself when it does not start that way. */
  function GetVersion(className: string): (r: string)
    ensures VersionOf(ShortName(className)).Some? ==> r == VersionOf(ShortName(className)).value && IsDigits(r)
    ensures VersionOf(ShortName(className)).None? ==> r == ShortName(className)
  {
    match VersionOf(ShortName(className))
    case Some(v) => v
    case None => ShortName(className)
  }

  // ---------------------------------------------------------------------------
  // The migration object
  // ---------------------------------------------------------------------------

  /** A migration instance, bound to a platform and a connection. */
  class Migration {
    const className: string
    /** The primitives `up()` and `down()` call, in order. */
    const up: seq<Step>
    const down: seq<Step>
    var platform: Platform
    var connection: Database

    constructor (className: string, up: seq<Step>, down: seq<Step>, platform: Platform, connection: Database)
      ensures this.className == className && this.up == up && this.down == down
      ensures this.platform == platform && this.connection == connection
    {
      this.className := className;
      this.up := up;
      this.down := down;
      this.platform := platform;
      this.connection := connection;
    }

    method SetConnection(connection: Database)
      modifies this
      ensures this.connection == connection && platform == old(platform)
    {
      this.connection := connection;
    }

    method SetPlatform(platform: Platform)
      modifies this
      ensures this.platform == platform && connection == old(connection)
    {
      this.platform := platform;
    }

    /** `execute()`: hands one statement to the connection. */
    method Execute(sql: string) returns (o: Outcome<Error>)
      requires connection.Valid()
      modifies connection
      ensures connection.Valid()
      ensures Run(connection.State(), o) == ExecAll(connection.rejected, old(connection.State()), [sql])
    {
      o := connection.Execute(sql, NoChange);
      assert [sql][1..] == [];
    }

    /** The `foreach (...) $this->execute($sql)` loops of `create()` and `table()`. */
    method ExecuteEach(stmts: seq<string>) returns (o: Outcome<Error>)
      requires connection.Valid()
      modifies connection
      ensures connection.Valid()
      ensures Run(connection.State(), o) == ExecAll(connection.rejected, old(connection.State()), stmts)
    {
      ghost var db0 := connection.State();
      o := Pass;
      for i := 0 to |stmts|
        invariant connection.Valid()
        invariant o == Pass
        invariant ExecAll(connection.rejected, db0, stmts[..i]) == Run(connection.State(), Pass)
      {
        o := Execute(stmts[i]);
        ExecAllAppend(connection.rejected, db0, stmts[..i], [stmts[i]]);
        assert stmts[..i] + [stmts[i]] == stmts[..i + 1];
        if o.Fail? {
          ExecAllAppend(connection.rejected, db0, stmts[..i + 1], stmts[i + 1..]);
          assert stmts[..i + 1] + stmts[i + 1..] == stmts;
          return;
        }
      }
      assert stmts[..|stmts|] == stmts;
    }

    /** `create()`: CREATE TABLE, its indexes, then its sequence if any. */
    method Create(t: TableDef) returns (o: Outcome<Error>)
      requires connection.Valid()
      modifies connection
      ensures connection.Valid()
      ensures Run(connection.State(), o) == RunStep(connection.rejected, old(connection.State()), platform, CreateStep(t))
    {
      ghost var db0 := connection.State();
      var sql := CreateTable(platform, t);
      if sql.Err? {
        return Fail(sql.error);
      }
      ghost var indexes := IndexStatements(t.name, t.indexes);
      ghost var sequence := OptionToSeq(CreateSequence(platform, t));
      assert StepStatements(platform, CreateStep(t)) == Ok([sql.value] + indexes + sequence);
      ExecAllAppend(connection.rejected, db0, [sql.value], indexes);
      ExecAllAppend(connection.rejected, db0, [sql.value] + indexes, sequence);
      o := Execute(sql.value);
      if o.Fail? {
        return;
      }
      var indexSql := CreateIndexes(t);
      o := ExecuteEach(indexSql);
      if o.Fail? {
        return;
      }
      var sequenceSql := CreateSequence(platform, t);
      if sequenceSql.Some? {
        o := Execute(sequenceSql.value);
      }
    }

    /** `drop()`: DROP TABLE, then the sequence drop if any. */
    method Drop(tableName: string) returns (o: Outcome<Error>)
      requires connection.Valid()
      modifies connection
      ensures connection.Valid()
      ensures Run(connection.State(), o) == RunStep(connection.rejected, old(connection.State()), platform, DropStep(tableName))
    {
      ghost var db0 := connection.State();
      ghost var sequence := OptionToSeq(DropSequence(platform, tableName));
      ExecAllAppend(connection.rejected, db0, [DropTable(tableName)], sequence);
      o := Execute(DropTable(tableName));
      if o.Fail? {
        return;
      }
      var sequenceSql := DropSequence(platform, tableName);
      if sequenceSql.Some? {
        o := Execute(sequenceSql.value);
      }
    }

    /** `table()`: the ALTER statements of the table's operation log. */
    method Table(t: TableDef) returns (o: Outcome<Error>)
      requires connection.Valid()
      modifies connection
      ensures connection.Valid()
      ensures Run(connection.State(), o) == RunStep(connection.rejected, old(connection.State()), platform, TableStep(t))
    {
      var stmts := AlterTable(platform, t);
      if stmts.Err? {
        return Fail(stmts.error);
      }
      o := ExecuteEach(stmts.value);
    }

    /** `sql()`: the statement chosen for the running dialect. */
    method Sql(sql: string, pgsql: Option<string>, sqlite: Option<string>) returns (o: Outcome<Error>)
      requires connection.Valid()
      modifies connection
      ensures connection.Valid()
      ensures Run(connection.State(), o) == RunStep(connection.rejected, old(connection.State()), platform, SqlStep(sql, pgsql, sqlite))
    {
      var dbType := Name(platform);
      if dbType == "pgsql" && pgsql.Some? {
        o := Execute(pgsql.value);
      } else if dbType == "sqlite3" && sqlite.Some? {
        o := Execute(sqlite.value);
      } else {
        o := Execute(sql);
      }
    }

    /** One primitive call. */
    method Perform(step: Step) returns (o: Outcome<Error>)
      requires connection.Valid()
      modifies connection
      ensures connection.Valid()
      ensures Run(connection.State(), o) == RunStep(connection.rejected, old(connection.State()), platform, step)
    {
      match step
      case CreateStep(t) => o := Create(t);
      case TableStep(t) => o := Table(t);
      case DropStep(tableName) => o := Drop(tableName);
      case SqlStep(sql, pgsql, sqlite) => o := Sql(sql, pgsql, sqlite);
    }

    /** A body: its primitives in order, stopping at the first that raises. */
    method PerformAll(steps: seq<Step>) returns (o: Outcome<Error>)
      requires connection.Valid()
      modifies connection
      ensures connection.Valid()
      ensures Run(connection.State(), o) == RunSteps(connection.rejected, old(connection.State()), platform, steps)
    {
      ghost var db0 := connection.State();
      o := Pass;
      ghost var built := StepResults(platform, steps);
      for i := 0 to |steps|
        invariant connection.Valid()
        invariant o == Pass
        invariant RunAllBuilt(connection.rejected, db0, built[..i]) == Run(connection.State(), Pass)
      {
        assert built[i] == StepStatements(platform, steps[i]);
        RunAllBuiltNext(connection.rejected, db0, built, i);
        o := Perform(steps[i]);
        if o.Fail? {
          RunAllAbort(connection.rejected, db0, built, i + 1);
          return;
        }
      }
      assert built[..|steps|] == built;
    }

    /** `up()`. */
    method Up() returns (o: Outcome<Error>)
      requires connection.Valid()
      modifies connection
      ensures connection.Valid()
      ensures Run(connection.State(), o) == RunSteps(connection.rejected, old(connection.State()), platform, up)
    {
      o := PerformAll(up);
    }

    /** `down()`. */
    method Down() returns (o: Outcome<Error>)
      requires connection.Valid()
      modifies connection
      ensures connection.Valid()
      ensures Run(connection.State(), o) == RunSteps(connection.rejected, old(connection.State()), platform, down)
    {
      o := PerformAll(down);
    }

    /** `getVersion()`. */
    function Version(): (r: string)
      ensures r == GetVersion(className)
    {
      GetVersion(className)
    }
  }
}
