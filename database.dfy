/** The database behind a connection, as the migration engine sees it: the statements it
    has run, in order, and the versions recorded in the migration table. Which statements
    the server refuses is fixed in advance; a refused statement raises, and nothing that
    ran before it is undone (no transaction). */
module Connection {
  import opened Wrappers
  import opened Errors
  import opened Versions

  /** What a statement does to the migration table. */
  datatype RowChange = NoChange | AddVersion(version: Version) | RemoveVersion(version: Version)

  /** A snapshot of the database: the statement log and the recorded versions, listed as
      `SELECT version ... ORDER BY version ASC` returns them. */
  datatype DbState = DbState(log: seq<string>, versions: seq<Version>)

  predicate ValidState(db: DbState) {
    Sorted(db.versions)
  }

  /** The recorded versions after a change to the migration table. */
  function Change(versions: seq<Version>, change: RowChange): (r: seq<Version>)
    requires Sorted(versions)
    ensures Sorted(r)
    ensures change.NoChange? ==> r == versions
    ensures change.AddVersion? ==> forall x :: x in r <==> x in versions || x == change.version
    ensures change.RemoveVersion? ==> forall x :: x in r <==> x in versions && x != change.version
  {
    match change
    case NoChange => versions
    case AddVersion(v) => Insert(versions, v)
    case RemoveVersion(v) => Remove(versions, v)
  }

  /** One statement: refused, with the state unchanged, or appended to the log with its
      effect on the migration table. */
  function Exec(rejected: set<string>, db: DbState, sql: string, change: RowChange): (r: Result<DbState, Error>)
    requires ValidState(db)
    ensures r.Err? <==> sql in rejected
    ensures r.Err? ==> r.error == StatementRejected(sql)
    ensures r.Ok? ==> ValidState(r.value) && r.value.log == db.log + [sql]
    ensures r.Ok? ==> r.value.versions == Change(db.versions, change)
  {
    if sql in rejected then Err(StatementRejected(sql))
    else Ok(DbState(db.log + [sql], Change(db.versions, change)))
  }

  /** The state after a run of statements, and whether the run completed. */
  datatype Run = Run(db: DbState, outcome: Outcome<Error>)

  /** Statements executed one after another; the first refused one stops the run. */
  function ExecAll(rejected: set<string>, db: DbState, stmts: seq<string>): (r: Run)
    requires ValidState(db)
    ensures ValidState(r.db) && r.db.versions == db.versions
    ensures db.log <= r.db.log
    decreases |stmts|
  {
    if stmts == [] then Run(db, Pass)
    else if stmts[0] in rejected then Run(db, Fail(StatementRejected(stmts[0])))
    else ExecAll(rejected, DbState(db.log + [stmts[0]], db.versions), stmts[1..])
  }

  /** No statement of the list is refused. */
  predicate Accepted(rejected: set<string>, stmts: seq<string>) {
    forall i :: 0 <= i < |stmts| ==> stmts[i] !in rejected
  }

  /** A run completes exactly when no statement is refused, and then logs every statement
      in order. */
  lemma {:induction false} ExecAllCompletes(rejected: set<string>, db: DbState, stmts: seq<string>)
    requires ValidState(db)
    ensures ExecAll(rejected, db, stmts).outcome.Pass? <==> forall i :: 0 <= i < |stmts| ==> stmts[i] !in rejected
    ensures ExecAll(rejected, db, stmts).outcome.Pass? ==> ExecAll(rejected, db, stmts).db.log == db.log + stmts
    decreases |stmts|
  {
    if stmts != [] && stmts[0] !in rejected {
      var rest := stmts[1..];
      ExecAllCompletes(rejected, DbState(db.log + [stmts[0]], db.versions), rest);
      assert forall i :: 0 <= i < |rest| ==> rest[i] == stmts[i + 1];
      assert db.log + [stmts[0]] + rest == db.log + stmts;
    }
  }

  /** A run that stops has logged the statements before the first refused one and
      reports that one. */
  lemma {:induction false} ExecAllStops(rejected: set<string>, db: DbState, stmts: seq<string>)
    requires ValidState(db)
    ensures ExecAll(rejected, db, stmts).outcome.Fail? ==> exists k :: (
      && 0 <= k < |stmts| && stmts[k] in rejected
      && (forall j :: 0 <= j < k ==> stmts[j] !in rejected)
      && ExecAll(rejected, db, stmts).db.log == db.log + stmts[..k]
      && ExecAll(rejected, db, stmts).outcome.error == StatementRejected(stmts[k]))
    decreases |stmts|
  {
    if stmts != [] && stmts[0] !in rejected {
      var db' := DbState(db.log + [stmts[0]], db.versions);
      var rest := stmts[1..];
      ExecAllStops(rejected, db', rest);
      if ExecAll(rejected, db', rest).outcome.Fail? {
        var k :| (
          && 0 <= k < |rest| && rest[k] in rejected
          && (forall j :: 0 <= j < k ==> rest[j] !in rejected)
          && ExecAll(rejected, db', rest).db.log == db'.log + rest[..k]
          && ExecAll(rejected, db', rest).outcome.error == StatementRejected(rest[k]));
        assert db'.log + rest[..k] == db.log + stmts[..k + 1];
        forall j | 0 <= j < k + 1 ensures stmts[j] !in rejected {
          if j > 0 { assert stmts[j] == rest[j - 1]; }
        }
        assert stmts[k + 1] == rest[k];
      }
    } else if stmts != [] {
      assert stmts[..0] == [];
    }
  }

  /** Running `a` then `b` is running `a + b`. */
  lemma {:induction false} ExecAllAppend(rejected: set<string>, db: DbState, a: seq<string>, b: seq<string>)
    requires ValidState(db)
    ensures ExecAll(rejected, db, a + b)
      == if ExecAll(rejected, db, a).outcome.Fail? then ExecAll(rejected, db, a)
         else ExecAll(rejected, ExecAll(rejected, db, a).db, b)
    decreases |a|
  {
    if a == [] {
      assert a + b == b;
    } else {
      assert (a + b)[0] == a[0] && (a + b)[1..] == a[1..] + b;
      if a[0] !in rejected {
        ExecAllAppend(rejected, DbState(db.log + [a[0]], db.versions), a[1..], b);
      }
    }
  }

  /** The database connection. */
  class Database {
    /** The statements the server refuses. */
    const rejected: set<string>
    var log: seq<string>
    var versions: seq<Version>

    ghost predicate Valid()
      reads this
    {
      Sorted(versions)
    }

    function State(): (s: DbState)
      reads this
      ensures s.log == log && s.versions == versions
    {
      DbState(log, versions)
    }

    /** A connection to a database whose migration table holds `recorded`. */
    constructor (rejected: set<string>, recorded: seq<Version>)
      ensures Valid() && this.rejected == rejected
      ensures log == [] && versions == Sort(recorded)
    {
      this.rejected := rejected;
      log := [];
      versions := Sort(recorded);
    }

    /** `execute($sql)`: runs one statement, or raises and changes nothing. */
    method Execute(sql: string, change: RowChange) returns (o: Outcome<Error>)
      requires Valid()
      modifies this
      ensures Valid()
      ensures Exec(rejected, old(State()), sql, change).Err? ==>
        o == Fail(Exec(rejected, old(State()), sql, change).error) && State() == old(State())
      ensures Exec(rejected, old(State()), sql, change).Ok? ==>
        o == Pass && State() == Exec(rejected, old(State()), sql, change).value
    {
      if sql in rejected {
        o := Fail(StatementRejected(sql));
      } else {
        log := log + [sql];
        versions := Change(versions, change);
        o := Pass;
      }
    }
  }
}
