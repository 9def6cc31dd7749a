/** The migration runner: it discovers migration classes in a directory, keeps the list of
    applied versions in the `dtb_migration` table, and applies pending migrations in
    ascending version order (`migrate`), reverts the newest ones (`rollback`) and lists
    the state of every migration (`getStatus`). */
module MigrationRunner {
  import opened Wrappers
  import opened Errors
  import opened Strings
  import opened Versions
  import opened Platforms
  import opened Connection
  import opened MigrationUnit

  // ---------------------------------------------------------------------------
  // Platform choice and the migration table
  // ---------------------------------------------------------------------------

  /** `createPlatform()`: the dialect for a database type name, or an error. */
  function CreatePlatform(dbType: string): (r: Result<Platform, Error>)
    ensures r == Ok(MySQL) <==> dbType in {"mysqli", "mysql"}
    ensures r == Ok(PostgreSQL) <==> dbType in {"pgsql", "postgres", "postgresql"}
    ensures r == Ok(SQLite) <==> dbType in {"sqlite3", "sqlite"}
    ensures r.Err? ==> r.error == UnsupportedDatabaseType(dbType)
  {
    if dbType == "mysqli" || dbType == "mysql" then Ok(MySQL)
    else if dbType == "pgsql" || dbType == "postgres" || dbType == "postgresql" then Ok(PostgreSQL)
    else if dbType == "sqlite3" || dbType == "sqlite" then Ok(SQLite)
    else Err(UnsupportedDatabaseType(dbType))
  }

  /** Exactly seven spellings are accepted, and every dialect's own name selects that
      dialect. */
  lemma CreatePlatformAccepts(dbType: string, p: Platform)
    ensures CreatePlatform(dbType).Ok?
      <==> dbType in {"mysqli", "mysql", "pgsql", "postgres", "postgresql", "sqlite3", "sqlite"}
    ensures CreatePlatform(Name(p)) == Ok(p)
  {
  }

  const MigrationsTable := "dtb_migration"

  /** `getCreateMigrationTableSql()`: the dialect's DDL for the table of applied versions;
      `IF NOT EXISTS` makes it harmless to issue before every command. */
  function MigrationTableSql(p: Platform): (r: string)
    ensures StartsWith(r, "CREATE TABLE IF NOT EXISTS " + MigrationsTable + " (\n")
  {
    var head := "CREATE TABLE IF NOT EXISTS " + MigrationsTable + " (\n";
    var indent := "                        ";
    var close := "                    )";
    var body := match p
      case MySQL =>
        indent + "migration_id INT NOT NULL AUTO_INCREMENT PRIMARY KEY,\n"
        + indent + "version VARCHAR(255) NOT NULL UNIQUE,\n"
        + indent + "executed_at DATETIME DEFAULT CURRENT_TIMESTAMP\n"
        + close + " ENGINE=InnoDB DEFAULT CHARSET=utf8"
      case PostgreSQL =>
        indent + "migration_id SERIAL PRIMARY KEY,\n"
        + indent + "version VARCHAR(255) NOT NULL UNIQUE,\n"
        + indent + "executed_at TIMESTAMP DEFAULT CURRENT_TIMESTAMP\n"
        + close
      case SQLite =>
        indent + "migration_id INTEGER PRIMARY KEY,\n"
        + indent + "version TEXT NOT NULL UNIQUE,\n"
        + indent + "executed_at TEXT DEFAULT (datetime('now','localtime'))\n"
        + close;
    assert (head + body)[..|head|] == head;
    head + body
  }

  /** `markAsExecuted()`'s statement. */
  function InsertSql(version: string): string {
    "INSERT INTO " + MigrationsTable + " (version) VALUES ('" + AddSlashes(version) + "')"
  }

  /** `markAsNotExecuted()`'s statement. */
  function DeleteSql(version: string): string {
    "DELETE FROM " + MigrationsTable + " WHERE version = '" + AddSlashes(version) + "'"
  }

  /** A version is written into the statements unchanged (digits need no escaping), and
      any string is read back from its escaped form. */
  lemma {:induction false} VersionLiteral(version: Version, s: string)
    ensures AddSlashes(version) == version
    ensures StripSlashes(AddSlashes(s)) == s
    ensures InsertSql(version) == "INSERT INTO " + MigrationsTable + " (version) VALUES ('" + version + "')"
    ensures DeleteSql(version) == "DELETE FROM " + MigrationsTable + " WHERE version = '" + version + "'"
  {
    DigitsNeedNoSlashes(version);
    StripSlashesAddSlashes(s);
  }

  lemma {:induction false} DigitsNeedNoSlashes(s: string)
    requires IsDigits(s)
    ensures AddSlashes(s) == s
  {
    if |s| > 0 {
      DigitsNeedNoSlashes(s[1..]);
      assert s == [s[0]] + s[1..];
    }
  }

  // ---------------------------------------------------------------------------
  // Discovering migrations
  // ---------------------------------------------------------------------------

  /** A class the runtime has declared: a migration (with the primitives its `up()` and
      `down()` call) or some other class. */
  datatype ClassKind = MigrationClass(up: seq<Step>, down: seq<Step>) | OtherClass
  datatype Declared = Declared(name: string, kind: ClassKind)

  /** A class the runner found for a migration file: `name` is the spelling
      `findMigrationClass()` returns (the candidate it asked `class_exists()` about, or the
      declared name the scan matched), `className` the spelling the class was declared
      with, which is what an instance reports as its own name. */
  datatype Found = Found(name: string, className: string, kind: ClassKind)

  /** The migrations directory as the runner sees it: whether it exists, the entries
      `glob()` lists in its order, and the classes declared once those files are loaded. */
  datatype Registry = Registry(directoryExists: bool, files: seq<string>, classes: seq<Declared>)

  const MigrationsNamespace := "Eccube2\\Migration\\Migrations\\"

  /** ASCII lower case, as PHP folds class names. */
  function LowerAscii(c: char): (r: char)
    ensures 'A' <= c <= 'Z' ==> r as int == c as int + 32
    ensures !('A' <= c <= 'Z') ==> r == c
  {
    if 'A' <= c <= 'Z' then (c as int + 32) as char else c
  }

  /** PHP class names are case-insensitive: two names denote the same class when they
      agree up to ASCII letter case. */
  predicate SameClassName(a: string, b: string) {
    |a| == |b| && forall i :: 0 <= i < |a| ==> LowerAscii(a[i]) == LowerAscii(b[i])
  }

  /** `class_exists()`: the first declared class whose name matches, ignoring case. */
  function ClassNamed(classes: seq<Declared>, name: string): (r: Option<Declared>)
    ensures r.Some? ==> r.value in classes && SameClassName(r.value.name, name)
    ensures r.None? <==> forall i :: 0 <= i < |classes| ==> !SameClassName(classes[i].name, name)
  {
    if classes == [] then None
    else if SameClassName(classes[0].name, name) then Some(classes[0])
    else
      var r := ClassNamed(classes[1..], name);
      assert forall i :: 1 <= i < |classes| ==> classes[i] == classes[1..][i - 1];
      r
  }

  /** A name differing only in the case of its letters names the same declared class. */
  lemma {:induction false} ClassNamedIgnoresCase(classes: seq<Declared>, name: string, other: string)
    requires SameClassName(name, other)
    ensures ClassNamed(classes, name) == ClassNamed(classes, other)
  {
    if classes != [] {
      var a := classes[0].name;
      assert SameClassName(a, name) <==> SameClassName(a, other);
      ClassNamedIgnoresCase(classes[1..], name, other);
    }
  }

  /** A found class is a declared one: its declared spelling and kind are those of a
      class in the list, and the name it was found under agrees with that spelling up to
      case. */
  predicate DeclaredAs(classes: seq<Declared>, f: Found) {
    && Declared(f.className, f.kind) in classes
    && SameClassName(f.className, f.name)
  }

  /** The declared-class scan's test: the class is `shortName` in some namespace. */
  predicate NamesShortClass(d: Declared, shortName: string) {
    EndsWith(d.name, "\\" + shortName) || d.name == shortName
  }

  /** The first declared class that passes the scan's test. */
  function FirstNamingShort(classes: seq<Declared>, shortName: string): (r: Option<Declared>)
    ensures r.None? <==> forall i :: 0 <= i < |classes| ==> !NamesShortClass(classes[i], shortName)
    ensures r.Some? ==> exists i :: (
      && 0 <= i < |classes| && classes[i] == r.value && NamesShortClass(classes[i], shortName)
      && forall j :: 0 <= j < i ==> !NamesShortClass(classes[j], shortName))
  {
    if classes == [] then None
    else if NamesShortClass(classes[0], shortName) then Some(classes[0])
    else
      var r := FirstNamingShort(classes[1..], shortName);
      assert forall i :: 1 <= i < |classes| ==> classes[i] == classes[1..][i - 1];
      r
  }

  /** `findMigrationClass()`: the class in the migrations namespace, else the global
      class (both found ignoring case, and returned under the name asked for), else the
      first declared class with that short name. */
  function MigrationClassFor(classes: seq<Declared>, shortName: string): Option<Found> {
    match ClassNamed(classes, MigrationsNamespace + shortName)
    case Some(d) => Some(Found(MigrationsNamespace + shortName, d.name, d.kind))
    case None =>
      match ClassNamed(classes, shortName)
      case Some(d) => Some(Found(shortName, d.name, d.kind))
      case None =>
        match FirstNamingShort(classes, shortName)
        case Some(d) => Some(Found(d.name, d.name, d.kind))
        case None => None
  }

  /** The class is one of the two candidates up to case, or has that short name. */
  predicate Answers(d: Declared, shortName: string) {
    || SameClassName(d.name, MigrationsNamespace + shortName)
    || SameClassName(d.name, shortName)
    || NamesShortClass(d, shortName)
  }

  /** A class is found exactly when some declared class has, up to case, one of the two
      candidate names, or has that short name; the one found is a declared class under a
      name with that short name. */
  lemma MigrationClassForSpec(classes: seq<Declared>, shortName: string)
    ensures MigrationClassFor(classes, shortName).Some?
      <==> exists i :: 0 <= i < |classes| && Answers(classes[i], shortName)
    ensures MigrationClassFor(classes, shortName).Some? ==>
      var f := MigrationClassFor(classes, shortName).value;
      DeclaredAs(classes, f) && (EndsWith(f.name, "\\" + shortName) || f.name == shortName)
  {
    var full := MigrationsNamespace + shortName;
    assert full[|full| - |"\\" + shortName|..] == "\\" + shortName;
    var c := ClassNamed(classes, full);
    if c.Some? {
      assert SameClassName(c.value.name, full);
    } else if ClassNamed(classes, shortName).Some? {
      var d := ClassNamed(classes, shortName).value;
      assert SameClassName(d.name, shortName);
    } else if FirstNamingShort(classes, shortName).Some? {
      var d := FirstNamingShort(classes, shortName).value;
      var i :| 0 <= i < |classes| && classes[i] == d && NamesShortClass(classes[i], shortName);
      assert SameClassName(d.name, d.name);
    }
  }

  /** A name that ends in `\` + `s`, where `s` holds no backslash, has short name `s`. */
  lemma ShortNameOfQualified(name: string, s: string)
    requires '\\' !in s
    requires EndsWith(name, "\\" + s) || name == s
    ensures ShortName(name) == s
  {
    if EndsWith(name, "\\" + s) {
      ShortNameAfterBackslash(name, s);
    } else {
      NoBackslashIn(name, s);
    }
  }

  /** The short name of `ns\s` is `s` when `s` holds no backslash. */
  lemma ShortNameAfterBackslash(name: string, s: string)
    requires '\\' !in s
    requires EndsWith(name, "\\" + s)
    ensures ShortName(name) == s
  {
    var r := ShortName(name);
    var n := |name|;
    var m := n - |s|;
    assert name[m - 1] == '\\' by { assert name[m - 1] == ("\\" + s)[0]; }
    assert name[m..] == s by { assert name[m..] == name[m - 1..][1..]; }
    NoBackslashIn(name, r);
    NoBackslashIn(name, s);
    assert |r| == |s|;
  }

  /** No position of a backslash-free suffix holds a backslash. */
  lemma NoBackslashIn(name: string, r: string)
    requires |r| <= |name| && r == name[|name| - |r|..] && '\\' !in r
    ensures forall i :: |name| - |r| <= i < |name| ==> name[i] != '\\'
  {
    forall i | |name| - |r| <= i < |name| ensures name[i] != '\\' {
      assert name[i] == r[i - (|name| - |r|)];
    }
  }

  /** A `Version*.php` entry, as `glob()` matches it. */
  predicate IsMigrationFile(file: string) {
    |file| >= 11 && StartsWith(file, "Version") && EndsWith(file, ".php")
  }

  /** What one directory entry contributes: its version and class, when it is a migration
      file whose name starts with `Version` and digits and whose class is found. */
  function Discover(classes: seq<Declared>, file: string): Option<(Version, Found)> {
    if !IsMigrationFile(file) then None
    else
      var className := file[..|file| - 4];
      match VersionOf(className)
      case None => None
      case Some(version) =>
        match MigrationClassFor(classes, className)
        case None => None
        case Some(d) => Some((version, d))
  }

  /** The discovered migrations, in directory order. */
  function Entries(classes: seq<Declared>, files: seq<string>): seq<(Version, Found)> {
    if files == [] then []
    else Entries(classes, files[..|files| - 1]) + OptionToSeq(Discover(classes, files[|files| - 1]))
  }

  function Discovered(registry: Registry): seq<(Version, Found)> {
    if registry.directoryExists then Entries(registry.classes, registry.files) else []
  }

  /** The class found for one migration file is a declared one, found under a name whose
      short name is the file's and whose `getVersion()` is the file's version. The class's
      declared short name agrees with the file's up to letter case, and when it agrees
      exactly, `getVersion()` of the instance (which reads the declared spelling) is the
      file's version as well. */
  lemma DiscoverIsClassVersion(classes: seq<Declared>, file: string)
    requires '\\' !in file
    ensures Discover(classes, file).Some? ==>
      var e := Discover(classes, file).value;
      && DeclaredAs(classes, e.1)
      && ShortName(e.1.name) == file[..|file| - 4]
      && GetVersion(e.1.name) == e.0
      && SameClassName(ShortName(e.1.className), file[..|file| - 4])
      && (ShortName(e.1.className) == file[..|file| - 4] ==> GetVersion(e.1.className) == e.0)
  {
    if Discover(classes, file).Some? {
      var className := file[..|file| - 4];
      var d := MigrationClassFor(classes, className).value;
      MigrationClassForSpec(classes, className);
      assert '\\' !in className by {
        forall i | 0 <= i < |className| ensures className[i] != '\\' {
          assert className[i] == file[i];
        }
      }
      ShortNameOfQualified(d.name, className);
      ShortNameIgnoresCase(d.className, d.name);
    }
  }

  /** For every discovered migration, the name it was found under reports, through
      `getVersion()`, the version it is filed under; the declared class's own short name
      agrees with that name's up to case, and reports the same version when it agrees
      exactly. */
  lemma {:induction false} DiscoveredVersionIsClassVersion(classes: seq<Declared>, files: seq<string>)
    requires forall i :: 0 <= i < |files| ==> '\\' !in files[i]
    ensures forall e :: e in Entries(classes, files) ==>
      && DeclaredAs(classes, e.1)
      && GetVersion(e.1.name) == e.0
      && SameClassName(ShortName(e.1.className), ShortName(e.1.name))
      && (ShortName(e.1.className) == ShortName(e.1.name) ==> GetVersion(e.1.className) == e.0)
  {
    if files != [] {
      var n := |files| - 1;
      DiscoveredVersionIsClassVersion(classes, files[..n]);
      DiscoverIsClassVersion(classes, files[n]);
    }
  }

  /** Names that agree up to case have short names that agree up to case: a backslash
      folds only to itself. */
  lemma {:induction false} ShortNameIgnoresCase(a: string, b: string)
    requires SameClassName(a, b)
    ensures SameClassName(ShortName(a), ShortName(b))
    decreases |a|
  {
    if a != [] {
      var n := |a| - 1;
      BackslashFoldsToItself(a[n], b[n]);
      if a[n] != '\\' {
        SameClassNamePrefix(a, b, n);
        ShortNameIgnoresCase(a[..n], b[..n]);
        SameClassNameAppend(ShortName(a[..n]), ShortName(b[..n]), a[n], b[n]);
      }
    }
  }

  /** Only a backslash lower-cases to a backslash. */
  lemma BackslashFoldsToItself(c: char, d: char)
    requires LowerAscii(c) == LowerAscii(d)
    ensures c == '\\' <==> d == '\\'
  {
  }

  /** Prefixes of names that agree up to case agree up to case. */
  lemma SameClassNamePrefix(a: string, b: string, n: nat)
    requires SameClassName(a, b) && n <= |a|
    ensures SameClassName(a[..n], b[..n])
  {
    forall i | 0 <= i < n ensures LowerAscii(a[..n][i]) == LowerAscii(b[..n][i]) {
      assert a[..n][i] == a[i] && b[..n][i] == b[i];
    }
  }

  /** Extending names that agree up to case by letters that agree up to case. */
  lemma SameClassNameAppend(x: string, y: string, c: char, d: char)
    requires SameClassName(x, y) && LowerAscii(c) == LowerAscii(d)
    ensures SameClassName(x + [c], y + [d])
  {
    forall i | 0 <= i < |x| + 1 ensures LowerAscii((x + [c])[i]) == LowerAscii((y + [d])[i]) {
      if i < |x| {
        assert (x + [c])[i] == x[i] && (y + [d])[i] == y[i];
      }
    }
  }

  /** A file `Version1_a.php` whose class was declared as `version1_a`: `class_exists()`
      finds it under the file's spelling and the runner files it under version `1`, while
      `getVersion()` of the instance reads the declared short name, which does not start
      with `Version`, and returns that name. */
  lemma DeclaredInOtherCase()
    ensures var classes := [Declared(MigrationsNamespace + "version1_a", MigrationClass([], []))];
      && Discover(classes, "Version1_a.php")
        == Some(("1", Found(MigrationsNamespace + "Version1_a", MigrationsNamespace + "version1_a", MigrationClass([], []))))
      && GetVersion(MigrationsNamespace + "version1_a") == "version1_a"
  {
    DiscoverOtherCase();
    GetVersionOtherCase();
  }

  /** The runner's half of the example above. */
  lemma DiscoverOtherCase()
    ensures Discover([Declared(MigrationsNamespace + "version1_a", MigrationClass([], []))], "Version1_a.php")
      == Some(("1", Found(MigrationsNamespace + "Version1_a", MigrationsNamespace + "version1_a", MigrationClass([], []))))
  {
    assert "Version1_a.php"[..10] == "Version1_a";
    assert "Version1_a"[7..] == "1_a" && "1_a"[1..] == "_a";
    assert LeadingDigits("_a") == "";
    assert LeadingDigits("1_a") == "1";
    assert VersionOf("Version1_a") == Some("1");
    assert SameClassName(MigrationsNamespace + "version1_a", MigrationsNamespace + "Version1_a");
  }

  /** The instance's half of the example above. */
  lemma GetVersionOtherCase()
    ensures GetVersion(MigrationsNamespace + "version1_a") == "version1_a"
  {
    ShortNameOfQualified(MigrationsNamespace + "version1_a", "version1_a");
    assert !StartsWith("version1_a", "Version") by { assert "version1_a"[0] != "Version"[0]; }
  }

  /** `$migrations[$version] = $class` over the entries: the last entry for a version wins. */
  function ToMap(es: seq<(Version, Found)>): map<Version, Found> {
    if es == [] then map[]
    else
      var n := |es| - 1;
      ToMap(es[..n])[es[n].0 := es[n].1]
  }

  /** The keys are the versions of the entries. */
  lemma {:induction false} ToMapKeys(es: seq<(Version, Found)>)
    ensures forall v :: v in ToMap(es) <==> exists i :: 0 <= i < |es| && es[i].0 == v
  {
    if es != [] {
      var n := |es| - 1;
      ToMapKeys(es[..n]);
      assert forall i :: 0 <= i < n ==> es[..n][i] == es[i];
    }
  }

  /** Each version maps to the class of its last entry. */
  lemma {:induction false} ToMapLastWins(es: seq<(Version, Found)>, i: nat)
    requires i < |es| && forall j :: i < j < |es| ==> es[j].0 != es[i].0
    ensures es[i].0 in ToMap(es) && ToMap(es)[es[i].0] == es[i].1
  {
    var n := |es| - 1;
    if i < n {
      assert es[..n][i] == es[i];
      ToMapLastWins(es[..n], i);
    }
  }

  /** The versions of the entries, ascending and without repetitions (`ksort`). */
  function SortedVersions(es: seq<(Version, Found)>): (r: seq<Version>)
    ensures Sorted(r)
  {
    if es == [] then []
    else
      var n := |es| - 1;
      Insert(SortedVersions(es[..n]), es[n].0)
  }

  /** The sorted versions are exactly the keys of the map. */
  lemma {:induction false} SortedVersionsKeys(es: seq<(Version, Found)>)
    ensures forall v :: v in SortedVersions(es) <==> v in ToMap(es)
  {
    if es != [] {
      SortedVersionsKeys(es[..|es| - 1]);
    }
  }

  /** `getAvailableMigrations()`: version to class. */
  function Available(registry: Registry): map<Version, Found> {
    ToMap(Discovered(registry))
  }

  /** Its keys after `ksort`. */
  function AvailableVersions(registry: Registry): (r: seq<Version>)
    ensures Sorted(r) && forall v :: v in r <==> v in Available(registry)
  {
    SortedVersionsKeys(Discovered(registry));
    SortedVersions(Discovered(registry))
  }

  // ---------------------------------------------------------------------------
  // Running migrations
  // ---------------------------------------------------------------------------

  /** The outcome of a runner command: the database afterwards and its result or the
      exception that ended it. */
  datatype Report<T> = Report(db: DbState, result: Result<T, Error>)

  /** `runMigration()`: a class that is not a migration raises; otherwise its `up()` or
      `down()` runs against the runner's connection and platform. */
  function RunUnit(rejected: set<string>, db: DbState, p: Platform, d: Found, up: bool): (r: Run)
    requires ValidState(db)
    ensures ValidState(r.db) && r.db.versions == db.versions
    ensures d.kind.OtherClass? ==> r == Run(db, Fail(NotAMigration(d.name)))
    ensures d.kind.MigrationClass? ==> r == RunSteps(rejected, db, p, if up then d.kind.up else d.kind.down)
  {
    match d.kind
    case OtherClass => Run(db, Fail(NotAMigration(d.name)))
    case MigrationClass(up', down') => RunSteps(rejected, db, p, if up then up' else down')
  }

  /** The statements a class's `up()` (or `down()`) sends, or why it cannot run: it is not
      a migration, or one of its primitives does not build. */
  function UnitScript(p: Platform, d: Found, up: bool): (r: Result<seq<string>, Error>)
    ensures d.kind.OtherClass? ==> r == Err(NotAMigration(d.name))
    ensures d.kind.MigrationClass? ==> r == Script(p, if up then d.kind.up else d.kind.down)
  {
    match d.kind
    case OtherClass => Err(NotAMigration(d.name))
    case MigrationClass(up', down') => Script(p, if up then up' else down')
  }

  /** A unit completes exactly when its script exists and no statement of it is refused,
      and it then has logged exactly its script. */
  lemma RunUnitScript(rejected: set<string>, db: DbState, p: Platform, d: Found, up: bool)
    requires ValidState(db)
    ensures RunUnit(rejected, db, p, d, up).outcome.Pass?
      <==> UnitScript(p, d, up).Ok? && Accepted(rejected, UnitScript(p, d, up).value)
    ensures RunUnit(rejected, db, p, d, up).outcome.Pass? ==>
      RunUnit(rejected, db, p, d, up).db.log == db.log + UnitScript(p, d, up).value
  {
    if d.kind.MigrationClass? {
      RunStepsScript(rejected, db, p, if up then d.kind.up else d.kind.down);
    }
  }

  /** `array_diff` then `sort`: the available versions not yet recorded, ascending. */
  function Pending(available: seq<Version>, executed: seq<Version>): (r: seq<Version>)
    requires Sorted(available)
    ensures Sorted(r)
    ensures forall v :: v in r <==> v in available && v !in executed
  {
    if available == [] then []
    else
      var rest := Pending(available[1..], executed);
      assert forall x :: x in available[1..] ==> Less(available[0], x);
      if available[0] in executed then rest
      else
        Cons(available[0], rest);
        [available[0]] + rest
  }

  /** The recorded versions after inserting `added` one at a time. */
  function AddAll(versions: seq<Version>, added: seq<Version>): (r: seq<Version>)
    requires Sorted(versions)
    ensures Sorted(r)
    ensures forall x :: x in r <==> x in versions || x in added
  {
    if added == [] then versions
    else
      var n := |added| - 1;
      assert forall x :: x in added <==> x in added[..n] || x == added[n];
      Insert(AddAll(versions, added[..n]), added[n])
  }

  /** The recorded versions after deleting `removed` one at a time. */
  function RemoveAll(versions: seq<Version>, removed: seq<Version>): (r: seq<Version>)
    requires Sorted(versions)
    ensures Sorted(r)
    ensures forall x :: x in r <==> x in versions && x !in removed
  {
    if removed == [] then versions
    else
      var n := |removed| - 1;
      assert forall x :: x in removed <==> x in removed[..n] || x == removed[n];
      Remove(RemoveAll(versions, removed[..n]), removed[n])
  }

  /** How far a runner loop got: the database, the versions it completed, and whether it
      ran to the end or stopped at an exception. */
  datatype Progress = Progress(db: DbState, done: seq<Version>, outcome: Outcome<Error>)

  /** What a command returns: its list on completion, the exception otherwise. */
  function ReportOf(g: Progress): Report<seq<Version>> {
    Report(g.db, if g.outcome.Pass? then Ok(g.done) else Err(g.outcome.error))
  }

  /** One iteration of `migrate()`: the class's `up()`, then its row. */
  function MigrateOne(rejected: set<string>, db: DbState, p: Platform, d: Found, version: Version): (r: Run)
    requires ValidState(db)
    ensures ValidState(r.db)
    ensures r.outcome.Fail? ==> r.db.versions == db.versions
    ensures r.outcome.Pass? ==> r.db.versions == Change(db.versions, AddVersion(version))
    ensures var u := RunUnit(rejected, db, p, d, true);
      && (u.outcome.Fail? ==> r == u)
      && (u.outcome.Pass? ==> (r.outcome.Pass? <==> InsertSql(version) !in rejected))
      && (r.outcome.Pass? ==> u.outcome.Pass? && r.db.log == u.db.log + [InsertSql(version)])
      && (u.outcome.Pass? && r.outcome.Fail? ==> r == Run(u.db, Fail(StatementRejected(InsertSql(version)))))
  {
    var run := RunUnit(rejected, db, p, d, true);
    if run.outcome.Fail? then run
    else
      match Exec(rejected, run.db, InsertSql(version), AddVersion(version))
      case Err(e) => Run(run.db, Fail(e))
      case Ok(db') => Run(db', Pass)
  }

  /** Each listed version with its class, as `$available[$version]` looks it up. */
  function Units(versions: seq<Version>, available: map<Version, Found>): (r: seq<(Version, Found)>)
    requires forall v :: v in versions ==> v in available
    ensures |r| == |versions|
    ensures forall i :: 0 <= i < |r| ==> r[i].0 == versions[i] && r[i].1 == available[versions[i]]
  {
    seq(|versions|, i requires 0 <= i < |versions| => (versions[i], available[versions[i]]))
  }

  /** One pass of `migrate()`'s loop body: nothing once an exception has ended the loop,
      else the next version's `up()` and row, which completes it or ends the loop. */
  function MigrateStep(rejected: set<string>, p: Platform, g: Progress, unit: (Version, Found)): (r: Progress)
    requires ValidState(g.db)
    ensures ValidState(r.db)
    ensures g.outcome.Fail? ==> r == g
    ensures g.outcome.Pass? && r.outcome.Fail? ==> r.done == g.done && r.db.versions == g.db.versions
    ensures r.outcome.Pass? ==> g.outcome.Pass? && r.done == g.done + [unit.0]
    ensures r.outcome.Pass? ==> r.db.versions == Change(g.db.versions, AddVersion(unit.0))
  {
    if g.outcome.Fail? then g
    else
      var one := MigrateOne(rejected, g.db, p, unit.1, unit.0);
      if one.outcome.Fail? then Progress(one.db, g.done, one.outcome)
      else Progress(one.db, g.done + [unit.0], Pass)
  }

  /** The versions of the units, in order. */
  function VersionsOf(units: seq<(Version, Found)>): (r: seq<Version>)
    ensures |r| == |units| && forall i :: 0 <= i < |units| ==> r[i] == units[i].0
  {
    seq(|units|, i requires 0 <= i < |units| => units[i].0)
  }

  /** The loop of `migrate()` over the pending versions and their classes; the first
      exception ends it. */
  function MigrateEach(rejected: set<string>, db: DbState, p: Platform, units: seq<(Version, Found)>): (r: Progress)
    requires ValidState(db)
    ensures ValidState(r.db)
  {
    if units == [] then Progress(db, [], Pass)
    else
      var n := |units| - 1;
      MigrateStep(rejected, p, MigrateEach(rejected, db, p, units[..n]), units[n])
  }

  /** `migrate()`: the migration table first, then the pending versions. */
  function MigrateProgress(rejected: set<string>, db: DbState, ddl: string, p: Platform, registry: Registry): (r: Progress)
    requires ValidState(db)
    ensures ValidState(r.db)
  {
    match Exec(rejected, db, ddl, NoChange)
    case Err(e) => Progress(db, [], Fail(e))
    case Ok(db1) =>
      MigrateEach(rejected, db1, p, Units(Pending(AvailableVersions(registry), db1.versions), Available(registry)))
  }

  function MigrateRun(rejected: set<string>, db: DbState, ddl: string, p: Platform, registry: Registry): (r: Report<seq<Version>>)
    requires ValidState(db)
    ensures ValidState(r.db)
  {
    ReportOf(MigrateProgress(rejected, db, ddl, p, registry))
  }

  /** The loop completes the versions of a prefix of the list, in order, and records
      exactly those; it completes all of them unless an exception ends it. */
  lemma {:induction false} MigrateEachSpec(rejected: set<string>, db: DbState, p: Platform, units: seq<(Version, Found)>)
    requires ValidState(db)
    ensures var r := MigrateEach(rejected, db, p, units);
      && r.done <= VersionsOf(units)
      && (r.outcome.Pass? ==> r.done == VersionsOf(units))
  {
    if units != [] {
      var n := |units| - 1;
      MigrateEachSpec(rejected, db, p, units[..n]);
      MigrateEachNext(rejected, db, p, units, n);
      VersionsOfNext(units, n);
      assert units[..n + 1] == units;
    }
  }

  lemma VersionsOfNext(units: seq<(Version, Found)>, i: nat)
    requires i < |units|
    ensures VersionsOf(units[..i + 1]) == VersionsOf(units[..i]) + [units[i].0]
  {
    assert VersionsOf(units[..i + 1])[..i] == VersionsOf(units[..i]);
  }

  /** The loop records exactly the versions it completes. */
  lemma {:induction false} MigrateEachRecords(rejected: set<string>, db: DbState, p: Platform, units: seq<(Version, Found)>)
    requires ValidState(db)
    ensures var r := MigrateEach(rejected, db, p, units);
      r.db.versions == AddAll(db.versions, r.done)
  {
    if units != [] {
      var n := |units| - 1;
      var g := MigrateEach(rejected, db, p, units[..n]);
      MigrateEachRecords(rejected, db, p, units[..n]);
      var r := MigrateStep(rejected, p, g, units[n]);
      MigrateEachNext(rejected, db, p, units, n);
      assert units[..n + 1] == units;
      if r.outcome.Pass? {
        assert r.done[..|g.done|] == g.done;
        assert AddAll(db.versions, r.done) == Insert(AddAll(db.versions, g.done), units[n].0);
      }
    }
  }

  /** `migrate()` completes a prefix of the available versions not yet recorded, taken in
      ascending order, and records exactly those; on success it has completed all of
      them, so every available version is then recorded. */
  lemma MigrateRunSpec(rejected: set<string>, db: DbState, ddl: string, p: Platform, registry: Registry)
    requires ValidState(db)
    ensures var g := MigrateProgress(rejected, db, ddl, p, registry);
      && g.done <= Pending(AvailableVersions(registry), db.versions)
      && (forall v :: v in g.db.versions <==> v in db.versions || v in g.done)
    ensures MigrateRun(rejected, db, ddl, p, registry).result.Ok? ==>
      var done := MigrateRun(rejected, db, ddl, p, registry).result.value;
      && Sorted(done)
      && (forall v :: v in done <==> v in Available(registry) && v !in db.versions)
      && (forall v :: v in MigrateRun(rejected, db, ddl, p, registry).db.versions <==> v in db.versions || v in Available(registry))
  {
    var t := Exec(rejected, db, ddl, NoChange);
    if t.Ok? {
      var pending := Pending(AvailableVersions(registry), t.value.versions);
      var units := Units(pending, Available(registry));
      MigrateEachSpec(rejected, t.value, p, units);
      MigrateEachRecords(rejected, t.value, p, units);
      assert VersionsOf(units) == pending;
    }
  }

  /** Once `migrate()` has succeeded, running it again applies nothing. */
  lemma MigrateIdempotent(rejected: set<string>, db: DbState, ddl: string, p: Platform, registry: Registry)
    requires ValidState(db) && MigrateRun(rejected, db, ddl, p, registry).result.Ok?
    ensures MigrateRun(rejected, MigrateRun(rejected, db, ddl, p, registry).db, ddl, p, registry).result == Ok([])
  {
    MigrateRunSpec(rejected, db, ddl, p, registry);
    assert ddl !in rejected;
  }

  /** What a successful `migrate()` loop sends: for each unit in turn, the statements of
      its class's `up()`, then the INSERT of its version. */
  function MigrateScript(p: Platform, units: seq<(Version, Found)>): Result<seq<string>, Error>
  {
    if units == [] then Ok([])
    else
      var n := |units| - 1;
      Extend(MigrateScript(p, units[..n]), UnitScript(p, units[n].1, true), InsertSql(units[n].0))
  }

  /** A script followed by a unit's script and its closing statement, or the first failure. */
  function Extend(front: Result<seq<string>, Error>, unit: Result<seq<string>, Error>, last: string): Result<seq<string>, Error> {
    if front.Err? then front
    else if unit.Err? then Err(unit.error)
    else Ok(front.value + (unit.value + [last]))
  }

  /** An extended script exists and is accepted exactly when both parts exist and are. */
  lemma ExtendAccepted(rejected: set<string>, front: Result<seq<string>, Error>, unit: Result<seq<string>, Error>, last: string)
    ensures Extend(front, unit, last).Ok? && Accepted(rejected, Extend(front, unit, last).value)
      <==> && front.Ok? && Accepted(rejected, front.value)
           && unit.Ok? && Accepted(rejected, unit.value + [last])
  {
    if front.Ok? && unit.Ok? {
      AcceptedAppend(rejected, front.value, unit.value + [last]);
    }
  }

  /** The loop completes exactly when its script exists and no statement of it is refused,
      and it then has logged exactly that script: each version's INSERT right after the
      statements of its own `up()`. */
  lemma {:induction false} MigrateEachLog(rejected: set<string>, db: DbState, p: Platform, units: seq<(Version, Found)>)
    requires ValidState(db)
    ensures MigrateEach(rejected, db, p, units).outcome.Pass?
      <==> MigrateScript(p, units).Ok? && Accepted(rejected, MigrateScript(p, units).value)
    ensures MigrateEach(rejected, db, p, units).outcome.Pass? ==>
      MigrateEach(rejected, db, p, units).db.log == db.log + MigrateScript(p, units).value
  {
    if units != [] {
      var n := |units| - 1;
      var g := MigrateEach(rejected, db, p, units[..n]);
      MigrateEachLog(rejected, db, p, units[..n]);
      MigrateEachNext(rejected, db, p, units, n);
      assert units[..n + 1] == units;
      var front := MigrateScript(p, units[..n]);
      assert MigrateScript(p, units) == Extend(front, UnitScript(p, units[n].1, true), InsertSql(units[n].0));
      MigrateStepLog(rejected, db.log, p, g, front, units[n]);
    }
  }

  /** One more unit of the loop keeps its log equal to the script so far, extended by the
      unit's `up()` statements and its INSERT. */
  lemma MigrateStepLog(rejected: set<string>, log: seq<string>, p: Platform, g: Progress, front: Result<seq<string>, Error>, unit: (Version, Found))
    requires ValidState(g.db)
    requires g.outcome.Pass? <==> front.Ok? && Accepted(rejected, front.value)
    requires g.outcome.Pass? ==> g.db.log == log + front.value
    ensures var r := MigrateStep(rejected, p, g, unit);
      var e := Extend(front, UnitScript(p, unit.1, true), InsertSql(unit.0));
      && (r.outcome.Pass? <==> e.Ok? && Accepted(rejected, e.value))
      && (r.outcome.Pass? ==> r.db.log == log + e.value)
  {
    var (v, d) := unit;
    var t := UnitScript(p, d, true);
    ExtendAccepted(rejected, front, t, InsertSql(v));
    if g.outcome.Pass? {
      var one := MigrateOne(rejected, g.db, p, d, v);
      assert MigrateStep(rejected, p, g, unit) == Progress(one.db, if one.outcome.Pass? then g.done + [v] else g.done, one.outcome);
      MigrateOneLog(rejected, g.db, p, d, v);
      if one.outcome.Pass? {
        var x := t.value + [InsertSql(v)];
        assert one.db.log == (log + front.value) + x;
        AppendAssociates(log, front.value, x);
      }
    } else {
      assert MigrateStep(rejected, p, g, unit) == g;
    }
  }

  lemma AppendAssociates(a: seq<string>, b: seq<string>, c: seq<string>)
    ensures (a + b) + c == a + (b + c)
  {
  }

  /** Two scripts in a row are accepted exactly when each is. */
  lemma AcceptedAppend(rejected: set<string>, a: seq<string>, b: seq<string>)
    ensures Accepted(rejected, a + b) <==> Accepted(rejected, a) && Accepted(rejected, b)
  {
    var all := a + b;
    assert forall i :: 0 <= i < |a| ==> all[i] == a[i];
    assert forall i :: 0 <= i < |b| ==> all[|a| + i] == b[i];
    if Accepted(rejected, a) && Accepted(rejected, b) {
      forall i | 0 <= i < |all| ensures all[i] !in rejected {
        if i >= |a| { assert all[i] == b[i - |a|]; }
      }
    }
  }

  /** One unit of `migrate()` completes exactly when its `up()` script and then its INSERT
      are sent without refusal, and it then has logged exactly those. */
  lemma MigrateOneLog(rejected: set<string>, db: DbState, p: Platform, d: Found, version: Version)
    requires ValidState(db)
    ensures var r := MigrateOne(rejected, db, p, d, version);
      var t := UnitScript(p, d, true);
      && (r.outcome.Pass? <==> t.Ok? && Accepted(rejected, t.value + [InsertSql(version)]))
      && (r.outcome.Pass? ==> r.db.log == db.log + (t.value + [InsertSql(version)]))
  {
    RunUnitScript(rejected, db, p, d, true);
    var t := UnitScript(p, d, true);
    var u := RunUnit(rejected, db, p, d, true);
    var r := MigrateOne(rejected, db, p, d, version);
    if t.Ok? {
      AcceptedAppend(rejected, t.value, [InsertSql(version)]);
      var last := [InsertSql(version)];
      assert last[0] == InsertSql(version);
      assert Accepted(rejected, last) <==> InsertSql(version) !in rejected;
      if r.outcome.Pass? {
        assert db.log + t.value + [InsertSql(version)] == db.log + (t.value + [InsertSql(version)]);
      }
    }
  }

  /** `migrate()` succeeds exactly when the table DDL, then the script of the pending units
      are sent without refusal; the log then holds the DDL followed by that script. */
  lemma MigrateRunLog(rejected: set<string>, db: DbState, ddl: string, p: Platform, registry: Registry)
    requires ValidState(db)
    ensures var script := MigrateScript(p, Units(Pending(AvailableVersions(registry), db.versions), Available(registry)));
      && (MigrateRun(rejected, db, ddl, p, registry).result.Ok?
          <==> ddl !in rejected && script.Ok? && Accepted(rejected, script.value))
      && (MigrateRun(rejected, db, ddl, p, registry).result.Ok? ==>
          MigrateRun(rejected, db, ddl, p, registry).db.log == db.log + [ddl] + script.value)
  {
    var t := Exec(rejected, db, ddl, NoChange);
    if t.Ok? {
      MigrateEachLog(rejected, t.value, p, Units(Pending(AvailableVersions(registry), db.versions), Available(registry)));
    }
  }

  // ---------------------------------------------------------------------------
  // Rolling back
  // ---------------------------------------------------------------------------

  function Reverse<T>(s: seq<T>): (r: seq<T>)
    ensures |r| == |s| && forall i :: 0 <= i < |s| ==> r[i] == s[|s| - 1 - i]
  {
    if s == [] then [] else [s[|s| - 1]] + Reverse(s[..|s| - 1])
  }

  /** `array_slice(array_reverse($executed), 0, $steps)`: a negative length stops that
      many entries before the end. */
  function RollbackTargets(executed: seq<Version>, steps: int): (r: seq<Version>)
    ensures |r| == if steps >= 0 then (if steps < |executed| then steps else |executed|)
                   else (if |executed| + steps > 0 then |executed| + steps else 0)
    ensures forall i :: 0 <= i < |r| ==> r[i] == executed[|executed| - 1 - i]
  {
    var reversed := Reverse(executed);
    var length :=
      if steps >= 0 then (if steps < |reversed| then steps else |reversed|)
      else (if |reversed| + steps > 0 then |reversed| + steps else 0);
    reversed[..length]
  }

  /** The targets are the newest recorded versions, newest first: each is above every
      recorded version left out. */
  lemma RollbackTargetsNewest(executed: seq<Version>, steps: int)
    requires Sorted(executed)
    ensures forall i, j :: 0 <= i < j < |RollbackTargets(executed, steps)| ==>
      Less(RollbackTargets(executed, steps)[j], RollbackTargets(executed, steps)[i])
    ensures forall v, t :: v in executed && v !in RollbackTargets(executed, steps) && t in RollbackTargets(executed, steps) ==> Less(v, t)
  {
    var r := RollbackTargets(executed, steps);
    var n := |executed|;
    forall k | n - |r| <= k < n ensures executed[k] in r {
      assert executed[k] == r[n - 1 - k];
    }
    forall v, t | v in executed && v !in r && t in r ensures Less(v, t) {
      var a :| 0 <= a < n && executed[a] == v;
      var b :| 0 <= b < |r| && r[b] == t;
      assert t == executed[n - 1 - b];
    }
  }

  /** `x` occurs in `s` at some position before one where `y` occurs. */
  predicate Before(s: seq<Version>, x: Version, y: Version) {
    exists a, b :: 0 <= a < b < |s| && s[a] == x && s[b] == y
  }

  /** The versions among `targets` that have a class, in the order of `targets`. */
  function WithClass(targets: seq<Version>, available: map<Version, Found>): (r: seq<Version>)
    ensures |r| <= |targets|
    ensures forall v :: v in r <==> v in targets && v in available
    ensures forall i, j :: 0 <= i < j < |r| ==> Before(targets, r[i], r[j])
  {
    if targets == [] then []
    else
      var n := |targets| - 1;
      var front := WithClass(targets[..n], available);
      var r := front + (if targets[n] in available then [targets[n]] else []);
      forall i, j | 0 <= i < j < |r| ensures Before(targets, r[i], r[j]) {
        if j < |front| {
          assert r[i] == front[i] && r[j] == front[j];
          assert Before(targets[..n], front[i], front[j]);
          var a, b :| 0 <= a < b < n && targets[..n][a] == r[i] && targets[..n][b] == r[j];
          assert targets[a] == r[i] && targets[b] == r[j];
        } else {
          assert r[i] in targets[..n];
          var a :| 0 <= a < n && targets[..n][a] == r[i];
          assert targets[a] == r[i] && targets[n] == r[j];
        }
      }
      r
  }

  /** On success `rollback()` reverts its versions newest first. */
  lemma RollbackNewestFirst(rejected: set<string>, db: DbState, ddl: string, p: Platform, registry: Registry, steps: int)
    requires ValidState(db)
    requires RollbackRun(rejected, db, ddl, p, registry, steps).result.Ok?
    ensures var done := RollbackRun(rejected, db, ddl, p, registry, steps).result.value;
      forall i, j :: 0 <= i < j < |done| ==> Less(done[j], done[i])
  {
    RollbackRunSpec(rejected, db, ddl, p, registry, steps);
    var targets := RollbackTargets(db.versions, steps);
    RollbackTargetsNewest(db.versions, steps);
    var done := WithClass(targets, Available(registry));
    assert RollbackRun(rejected, db, ddl, p, registry, steps).result.value == done;
    forall i, j | 0 <= i < j < |done| ensures Less(done[j], done[i]) {
      assert Before(targets, done[i], done[j]);
      var a, b :| 0 <= a < b < |targets| && targets[a] == done[i] && targets[b] == done[j];
    }
  }

  /** One iteration of `rollback()` for a version with a class: its `down()`, then the
      deletion of its row. */
  function RollbackOne(rejected: set<string>, db: DbState, p: Platform, d: Found, version: Version): (r: Run)
    requires ValidState(db)
    ensures ValidState(r.db)
    ensures r.outcome.Fail? ==> r.db.versions == db.versions
    ensures r.outcome.Pass? ==> r.db.versions == Change(db.versions, RemoveVersion(version))
    ensures var u := RunUnit(rejected, db, p, d, false);
      && (u.outcome.Fail? ==> r == u)
      && (u.outcome.Pass? ==> (r.outcome.Pass? <==> DeleteSql(version) !in rejected))
      && (r.outcome.Pass? ==> u.outcome.Pass? && r.db.log == u.db.log + [DeleteSql(version)])
      && (u.outcome.Pass? && r.outcome.Fail? ==> r == Run(u.db, Fail(StatementRejected(DeleteSql(version)))))
  {
    var run := RunUnit(rejected, db, p, d, false);
    if run.outcome.Fail? then run
    else
      match Exec(rejected, run.db, DeleteSql(version), RemoveVersion(version))
      case Err(e) => Run(run.db, Fail(e))
      case Ok(db') => Run(db', Pass)
  }

  /** One pass of `rollback()`'s loop body: nothing once an exception has ended the loop
      or when the version has no class, else its `down()` and the deletion of its row,
      which completes it or ends the loop. */
  function RollbackStep(rejected: set<string>, p: Platform, available: map<Version, Found>, g: Progress, version: Version): (r: Progress)
    requires ValidState(g.db)
    ensures ValidState(r.db)
    ensures g.outcome.Fail? || version !in available ==> r == g
    ensures g.outcome.Pass? && r.outcome.Fail? ==> r.done == g.done && r.db.versions == g.db.versions
    ensures r.outcome.Pass? && version in available ==>
      g.outcome.Pass? && r.done == g.done + [version] && r.db.versions == Change(g.db.versions, RemoveVersion(version))
  {
    if g.outcome.Fail? || version !in available then g
    else
      var one := RollbackOne(rejected, g.db, p, available[version], version);
      if one.outcome.Fail? then Progress(one.db, g.done, one.outcome)
      else Progress(one.db, g.done + [version], Pass)
  }

  /** The loop of `rollback()`: a version without a class is skipped; the first exception
      ends the loop. */
  function RollbackEach(rejected: set<string>, db: DbState, p: Platform, available: map<Version, Found>, targets: seq<Version>): (r: Progress)
    requires ValidState(db)
    ensures ValidState(r.db)
  {
    if targets == [] then Progress(db, [], Pass)
    else
      var n := |targets| - 1;
      RollbackStep(rejected, p, available, RollbackEach(rejected, db, p, available, targets[..n]), targets[n])
  }

  /** `rollback($steps)`. */
  function RollbackProgress(rejected: set<string>, db: DbState, ddl: string, p: Platform, registry: Registry, steps: int): (r: Progress)
    requires ValidState(db)
    ensures ValidState(r.db)
  {
    match Exec(rejected, db, ddl, NoChange)
    case Err(e) => Progress(db, [], Fail(e))
    case Ok(db1) => RollbackEach(rejected, db1, p, Available(registry), RollbackTargets(db1.versions, steps))
  }

  function RollbackRun(rejected: set<string>, db: DbState, ddl: string, p: Platform, registry: Registry, steps: int): (r: Report<seq<Version>>)
    requires ValidState(db)
    ensures ValidState(r.db)
  {
    ReportOf(RollbackProgress(rejected, db, ddl, p, registry, steps))
  }

  /** The loop reverts a prefix of the targets that have a class, in order, and removes
      exactly their rows; it reverts all of them unless an exception ends it. */
  lemma {:induction false} RollbackEachSpec(rejected: set<string>, db: DbState, p: Platform, available: map<Version, Found>, targets: seq<Version>)
    requires ValidState(db)
    ensures RollbackEach(rejected, db, p, available, targets).done <= WithClass(targets, available)
    ensures RollbackEach(rejected, db, p, available, targets).outcome.Pass? ==>
      RollbackEach(rejected, db, p, available, targets).done == WithClass(targets, available)
  {
    if targets != [] {
      var n := |targets| - 1;
      RollbackEachSpec(rejected, db, p, available, targets[..n]);
      RollbackEachNext(rejected, db, p, available, targets, n);
      assert targets[..n + 1] == targets;
      RollbackSpecStep(rejected, p, available, RollbackEach(rejected, db, p, available, targets[..n]), targets[n],
        WithClass(targets[..n], available));
    }
  }

  /** One pass of the loop keeps the reverted versions a prefix of those with a class,
      and all of them while nothing has raised. */
  lemma RollbackSpecStep(rejected: set<string>, p: Platform, available: map<Version, Found>, g: Progress, v: Version, w: seq<Version>)
    requires ValidState(g.db)
    requires g.done <= w && (g.outcome.Pass? ==> g.done == w)
    ensures var r := RollbackStep(rejected, p, available, g, v);
      var x := w + (if v in available then [v] else []);
      r.done <= x && (r.outcome.Pass? ==> r.done == x)
  {
  }

  /** The loop removes exactly the rows of the versions it reverts. */
  lemma {:induction false} RollbackEachRecords(rejected: set<string>, db: DbState, p: Platform, available: map<Version, Found>, targets: seq<Version>)
    requires ValidState(db)
    ensures var r := RollbackEach(rejected, db, p, available, targets);
      r.db.versions == RemoveAll(db.versions, r.done)
  {
    if targets != [] {
      var n := |targets| - 1;
      var g := RollbackEach(rejected, db, p, available, targets[..n]);
      RollbackEachRecords(rejected, db, p, available, targets[..n]);
      var r := RollbackStep(rejected, p, available, g, targets[n]);
      RollbackEachNext(rejected, db, p, available, targets, n);
      assert targets[..n + 1] == targets;
      if r.outcome.Pass? && targets[n] in available {
        assert r.done[..|g.done|] == g.done;
        assert RemoveAll(db.versions, r.done) == Remove(RemoveAll(db.versions, g.done), targets[n]);
      }
    }
  }

  /** `rollback()` reverts the newest `steps` recorded versions that have a class, newest
      first, and removes exactly their rows; recorded versions without a class are
      skipped and stay recorded. If an exception ends it, a prefix of that list has been
      reverted and exactly those rows removed. */
  lemma RollbackRunSpec(rejected: set<string>, db: DbState, ddl: string, p: Platform, registry: Registry, steps: int)
    requires ValidState(db)
    ensures var g := RollbackProgress(rejected, db, ddl, p, registry, steps);
      && g.done <= WithClass(RollbackTargets(db.versions, steps), Available(registry))
      && (forall v :: v in g.db.versions <==> v in db.versions && v !in g.done)
    ensures RollbackRun(rejected, db, ddl, p, registry, steps).result.Ok? ==>
      var targets := RollbackTargets(db.versions, steps);
      && RollbackRun(rejected, db, ddl, p, registry, steps).result.value == WithClass(targets, Available(registry))
      && forall v :: v in RollbackRun(rejected, db, ddl, p, registry, steps).db.versions
           <==> v in db.versions && (v !in targets || v !in Available(registry))
  {
    var t := Exec(rejected, db, ddl, NoChange);
    if t.Ok? {
      var targets := RollbackTargets(db.versions, steps);
      RollbackEachSpec(rejected, t.value, p, Available(registry), targets);
      RollbackEachRecords(rejected, t.value, p, Available(registry), targets);
    }
  }

  /** What a successful `rollback()` loop sends: for each target with a class in turn,
      the statements of its class's `down()`, then the DELETE of its version. */
  function RollbackScript(p: Platform, available: map<Version, Found>, targets: seq<Version>): Result<seq<string>, Error>
  {
    if targets == [] then Ok([])
    else
      var n := |targets| - 1;
      var front := RollbackScript(p, available, targets[..n]);
      if targets[n] !in available then front
      else Extend(front, UnitScript(p, available[targets[n]], false), DeleteSql(targets[n]))
  }

  /** The loop completes exactly when its script exists and no statement of it is refused,
      and it then has logged exactly that script: each version's DELETE right after the
      statements of its own `down()`. */
  lemma {:induction false} RollbackEachLog(rejected: set<string>, db: DbState, p: Platform, available: map<Version, Found>, targets: seq<Version>)
    requires ValidState(db)
    ensures RollbackEach(rejected, db, p, available, targets).outcome.Pass?
      <==> RollbackScript(p, available, targets).Ok? && Accepted(rejected, RollbackScript(p, available, targets).value)
    ensures RollbackEach(rejected, db, p, available, targets).outcome.Pass? ==>
      RollbackEach(rejected, db, p, available, targets).db.log == db.log + RollbackScript(p, available, targets).value
  {
    if targets != [] {
      var n := |targets| - 1;
      var g := RollbackEach(rejected, db, p, available, targets[..n]);
      RollbackEachLog(rejected, db, p, available, targets[..n]);
      RollbackEachNext(rejected, db, p, available, targets, n);
      assert targets[..n + 1] == targets;
      var front := RollbackScript(p, available, targets[..n]);
      if targets[n] in available {
        var d := available[targets[n]];
        var t := UnitScript(p, d, false);
        var del := DeleteSql(targets[n]);
        assert RollbackScript(p, available, targets) == Extend(front, t, del);
        ExtendAccepted(rejected, front, t, del);
        var r := RollbackStep(rejected, p, available, g, targets[n]);
        if g.outcome.Pass? {
          var one := RollbackOne(rejected, g.db, p, d, targets[n]);
          assert r.outcome == one.outcome && r.db == one.db;
          RollbackOneLog(rejected, g.db, p, d, targets[n]);
          if r.outcome.Pass? {
            assert r.db.log == db.log + front.value + (t.value + [del]);
          }
        } else {
          assert r == g;
        }
      } else {
        assert RollbackScript(p, available, targets) == front;
      }
    }
  }

  /** One unit of `rollback()` completes exactly when its `down()` script and then its
      DELETE are sent without refusal, and it then has logged exactly those. */
  lemma RollbackOneLog(rejected: set<string>, db: DbState, p: Platform, d: Found, version: Version)
    requires ValidState(db)
    ensures var r := RollbackOne(rejected, db, p, d, version);
      var t := UnitScript(p, d, false);
      && (r.outcome.Pass? <==> t.Ok? && Accepted(rejected, t.value + [DeleteSql(version)]))
      && (r.outcome.Pass? ==> r.db.log == db.log + (t.value + [DeleteSql(version)]))
  {
    RunUnitScript(rejected, db, p, d, false);
    var t := UnitScript(p, d, false);
    var u := RunUnit(rejected, db, p, d, false);
    var r := RollbackOne(rejected, db, p, d, version);
    if t.Ok? {
      AcceptedAppend(rejected, t.value, [DeleteSql(version)]);
      var last := [DeleteSql(version)];
      assert last[0] == DeleteSql(version);
      assert Accepted(rejected, last) <==> DeleteSql(version) !in rejected;
      if r.outcome.Pass? {
        assert db.log + t.value + [DeleteSql(version)] == db.log + (t.value + [DeleteSql(version)]);
      }
    }
  }

  /** `rollback()` succeeds exactly when the table DDL, then the script of its targets are
      sent without refusal; the log then holds the DDL followed by that script. */
  lemma RollbackRunLog(rejected: set<string>, db: DbState, ddl: string, p: Platform, registry: Registry, steps: int)
    requires ValidState(db)
    ensures var script := RollbackScript(p, Available(registry), RollbackTargets(db.versions, steps));
      && (RollbackRun(rejected, db, ddl, p, registry, steps).result.Ok?
          <==> ddl !in rejected && script.Ok? && Accepted(rejected, script.value))
      && (RollbackRun(rejected, db, ddl, p, registry, steps).result.Ok? ==>
          RollbackRun(rejected, db, ddl, p, registry, steps).db.log == db.log + [ddl] + script.value)
  {
    var t := Exec(rejected, db, ddl, NoChange);
    if t.Ok? {
      RollbackEachLog(rejected, t.value, p, Available(registry), RollbackTargets(db.versions, steps));
    }
  }

  // ---------------------------------------------------------------------------
  // Status
  // ---------------------------------------------------------------------------

  datatype StatusRow = StatusRow(version: Version, executed: bool, name: string)

  /** One row per listed version: whether it is recorded, and its class. */
  function StatusRows(units: seq<(Version, Found)>, executed: seq<Version>): (r: seq<StatusRow>)
    ensures |r| == |units|
    ensures forall i :: 0 <= i < |r| ==> r[i].version == units[i].0 && (r[i].executed <==> units[i].0 in executed)
    ensures forall i :: 0 <= i < |r| ==> r[i].name == units[i].1.name
  {
    if units == [] then []
    else
      var n := |units| - 1;
      var v := units[n].0;
      StatusRows(units[..n], executed) + [StatusRow(v, v in executed, units[n].1.name)]
  }

  /** `getStatus()`. */
  function StatusRun(rejected: set<string>, db: DbState, ddl: string, p: Platform, registry: Registry): (r: Report<seq<StatusRow>>)
    requires ValidState(db)
    ensures r.result.Err? <==> ddl in rejected
    ensures r.result.Ok? ==>
      && |r.result.value| == |AvailableVersions(registry)|
      && (forall i, j :: 0 <= i < j < |r.result.value| ==> Less(r.result.value[i].version, r.result.value[j].version))
      && (forall i :: 0 <= i < |r.result.value| ==>
            r.result.value[i].version in Available(registry)
            && (r.result.value[i].executed <==> r.result.value[i].version in db.versions)
            && r.result.value[i].name == Available(registry)[r.result.value[i].version].name)
  {
    match Exec(rejected, db, ddl, NoChange)
    case Err(e) => Report(db, Err(e))
    case Ok(db1) => Report(db1, Ok(StatusRows(Units(AvailableVersions(registry), Available(registry)), db1.versions)))
  }

  /** After a successful `migrate()`, the status shows every available migration as
      executed. */
  lemma StatusAfterMigrate(rejected: set<string>, db: DbState, ddl: string, p: Platform, registry: Registry)
    requires ValidState(db) && MigrateRun(rejected, db, ddl, p, registry).result.Ok?
    ensures var s := StatusRun(rejected, MigrateRun(rejected, db, ddl, p, registry).db, ddl, p, registry);
      s.result.Ok? && forall i :: 0 <= i < |s.result.value| ==> s.result.value[i].executed
  {
    MigrateRunSpec(rejected, db, ddl, p, registry);
    assert ddl !in rejected;
  }

  // ---------------------------------------------------------------------------
  // The runner object
  // ---------------------------------------------------------------------------

  class Migrator {
    const connection: Database
    const platform: Platform
    /** The migrations directory. */
    const registry: Registry
    /** The statement `ensureMigrationTable()` sends, fixed by the platform. */
    const tableSql: string

    constructor (connection: Database, platform: Platform, registry: Registry)
      ensures this.connection == connection && this.platform == platform && this.registry == registry
      ensures tableSql == MigrationTableSql(platform)
    {
      this.connection := connection;
      this.platform := platform;
      this.registry := registry;
      tableSql := MigrationTableSql(platform);
    }

    /** `new Migrator($connection, $dbType, $path)`: raises for an unknown database type. */
    static method Open(connection: Database, dbType: string, registry: Registry) returns (r: Result<Migrator, Error>)
      ensures r.Err? <==> CreatePlatform(dbType).Err?
      ensures r.Err? ==> r.error == UnsupportedDatabaseType(dbType)
      ensures r.Ok? ==> fresh(r.value) && r.value.connection == connection && r.value.registry == registry
      ensures r.Ok? ==> r.value.platform == CreatePlatform(dbType).value
      ensures r.Ok? ==> r.value.tableSql == MigrationTableSql(r.value.platform)
    {
      var platform := CreatePlatform(dbType);
      if platform.Err? {
        return Err(platform.error);
      }
      var migrator := new Migrator(connection, platform.value, registry);
      r := Ok(migrator);
    }

    method EnsureMigrationTable() returns (o: Outcome<Error>)
      requires connection.Valid()
      modifies connection
      ensures connection.Valid()
      ensures Exec(connection.rejected, old(connection.State()), tableSql, NoChange).Err? ==>
        o.Fail? && o.error == Exec(connection.rejected, old(connection.State()), tableSql, NoChange).error
        && connection.State() == old(connection.State())
      ensures Exec(connection.rejected, old(connection.State()), tableSql, NoChange).Ok? ==>
        o == Pass && connection.State() == Exec(connection.rejected, old(connection.State()), tableSql, NoChange).value
    {
      o := connection.Execute(tableSql, NoChange);
    }

    /** `getExecutedMigrations()`: the recorded versions, ascending. */
    method GetExecutedMigrations() returns (versions: seq<Version>)
      requires connection.Valid()
      ensures Sorted(versions) && versions == connection.versions
    {
      versions := connection.versions;
    }

    /** `findMigrationClass()`. */
    method FindMigrationClass(shortName: string) returns (r: Option<Found>)
      ensures r == MigrationClassFor(registry.classes, shortName)
    {
      var candidates := [MigrationsNamespace + shortName, shortName];
      assert candidates[0] == MigrationsNamespace + shortName && candidates[1] == shortName;
      for c := 0 to |candidates|
        invariant forall j :: 0 <= j < c ==> ClassNamed(registry.classes, candidates[j]).None?
      {
        var found := ClassNamed(registry.classes, candidates[c]);
        if found.Some? {
          return Some(Found(candidates[c], found.value.name, found.value.kind));
        }
      }
      for i := 0 to |registry.classes|
        invariant forall j :: 0 <= j < i ==> !NamesShortClass(registry.classes[j], shortName)
      {
        if NamesShortClass(registry.classes[i], shortName) {
          FirstNamingShortAt(registry.classes, shortName, i);
          return Some(Found(registry.classes[i].name, registry.classes[i].name, registry.classes[i].kind));
        }
      }
      r := None;
    }

    /** `getAvailableMigrations()`, with the keys in `ksort` order. */
    method GetAvailableMigrations() returns (migrations: map<Version, Found>, versions: seq<Version>)
      ensures migrations == Available(registry) && versions == AvailableVersions(registry)
    {
      migrations := map[];
      versions := [];
      if !registry.directoryExists {
        return;
      }
      var files := registry.files;
      ghost var entries: seq<(Version, Found)> := [];
      for i := 0 to |files|
        invariant entries == Entries(registry.classes, files[..i])
        invariant migrations == ToMap(entries) && versions == SortedVersions(entries)
      {
        EntriesNext(registry.classes, files, i);
        var found := DiscoverFile(files[i]);
        if found.Some? {
          var (version, fullClassName) := found.value;
          EntriesExtend(entries, (version, fullClassName));
          migrations := migrations[version := fullClassName];
          versions := Insert(versions, version);
          entries := entries + [(version, fullClassName)];
        } else {
          assert entries + [] == entries;
        }
      }
      assert files[..|files|] == files;
    }

    /** The body of `getAvailableMigrations()`'s loop for one directory entry. */
    method DiscoverFile(file: string) returns (r: Option<(Version, Found)>)
      ensures r == Discover(registry.classes, file)
    {
      r := None;
      if IsMigrationFile(file) {
        var className := file[..|file| - 4];
        var version := VersionOf(className);
        if version.Some? {
          var fullClassName := FindMigrationClass(className);
          if fullClassName.Some? {
            r := Some((version.value, fullClassName.value));
          }
        }
      }
    }

    /** `runMigration()`. */
    method RunMigration(d: Found, up: bool) returns (o: Outcome<Error>)
      requires connection.Valid()
      modifies connection
      ensures connection.Valid()
      ensures Run(connection.State(), o) == RunUnit(connection.rejected, old(connection.State()), platform, d, up)
    {
      match d.kind
      case OtherClass =>
        o := Fail(NotAMigration(d.name));
      case MigrationClass(upSteps, downSteps) =>
        var migration := new Migration(d.className, upSteps, downSteps, platform, connection);
        if up {
          o := migration.Up();
        } else {
          o := migration.Down();
        }
    }

    method MarkAsExecuted(version: Version) returns (o: Outcome<Error>)
      requires connection.Valid()
      modifies connection
      ensures connection.Valid()
      ensures Exec(connection.rejected, old(connection.State()), InsertSql(version), AddVersion(version)).Err? ==>
        o.Fail? && o.error == Exec(connection.rejected, old(connection.State()), InsertSql(version), AddVersion(version)).error
        && connection.State() == old(connection.State())
      ensures Exec(connection.rejected, old(connection.State()), InsertSql(version), AddVersion(version)).Ok? ==>
        o == Pass && connection.State() == Exec(connection.rejected, old(connection.State()), InsertSql(version), AddVersion(version)).value
    {
      o := connection.Execute(InsertSql(version), AddVersion(version));
    }

    method MarkAsNotExecuted(version: Version) returns (o: Outcome<Error>)
      requires connection.Valid()
      modifies connection
      ensures connection.Valid()
      ensures Exec(connection.rejected, old(connection.State()), DeleteSql(version), RemoveVersion(version)).Err? ==>
        o.Fail? && o.error == Exec(connection.rejected, old(connection.State()), DeleteSql(version), RemoveVersion(version)).error
        && connection.State() == old(connection.State())
      ensures Exec(connection.rejected, old(connection.State()), DeleteSql(version), RemoveVersion(version)).Ok? ==>
        o == Pass && connection.State() == Exec(connection.rejected, old(connection.State()), DeleteSql(version), RemoveVersion(version)).value
    {
      o := connection.Execute(DeleteSql(version), RemoveVersion(version));
    }

    /** The body of `migrate()`'s loop for one version: its `up()`, then its row. */
    method MigrateVersion(d: Found, version: Version) returns (o: Outcome<Error>)
      requires connection.Valid()
      modifies connection
      ensures connection.Valid()
      ensures Run(connection.State(), o) == MigrateOne(connection.rejected, old(connection.State()), platform, d, version)
    {
      o := RunMigration(d, true);
      if o.Pass? {
        o := MarkAsExecuted(version);
      }
    }

    /** The body of `rollback()`'s loop for a version with a class: its `down()`, then the
        deletion of its row. */
    method RollbackVersion(d: Found, version: Version) returns (o: Outcome<Error>)
      requires connection.Valid()
      modifies connection
      ensures connection.Valid()
      ensures Run(connection.State(), o) == RollbackOne(connection.rejected, old(connection.State()), platform, d, version)
    {
      o := RunMigration(d, false);
      if o.Pass? {
        o := MarkAsNotExecuted(version);
      }
    }

    /** `migrate()`. */
    method Migrate() returns (r: Result<seq<Version>, Error>)
      requires connection.Valid()
      modifies connection
      ensures connection.Valid()
      ensures Report(connection.State(), r) == MigrateRun(connection.rejected, old(connection.State()), tableSql, platform, registry)
    {
      var o := EnsureMigrationTable();
      if o.Fail? {
        return Err(o.error);
      }
      var executed := GetExecutedMigrations();
      var available, availableVersions := GetAvailableMigrations();
      var pending := Pending(availableVersions, executed);
      ghost var db1 := connection.State();
      ghost var units := Units(pending, available);
      var executedVersions: seq<Version> := [];
      for i := 0 to |pending|
        invariant connection.Valid()
        invariant MigrateEach(connection.rejected, db1, platform, units[..i]) == Progress(connection.State(), executedVersions, Pass)
      {
        MigrateEachNext(connection.rejected, db1, platform, units, i);
        var version := pending[i];
        o := MigrateVersion(available[version], version);
        if o.Fail? {
          MigrateEachAbort(connection.rejected, db1, platform, units, i + 1);
          return Err(o.error);
        }
        executedVersions := executedVersions + [version];
      }
      assert units[..|pending|] == units;
      r := Ok(executedVersions);
    }

    /** `rollback($steps = 1)`. */
    method Rollback(steps: int := 1) returns (r: Result<seq<Version>, Error>)
      requires connection.Valid()
      modifies connection
      ensures connection.Valid()
      ensures Report(connection.State(), r) == RollbackRun(connection.rejected, old(connection.State()), tableSql, platform, registry, steps)
    {
      var o := EnsureMigrationTable();
      if o.Fail? {
        return Err(o.error);
      }
      var executed := GetExecutedMigrations();
      var available, _ := GetAvailableMigrations();
      var toRollback := RollbackTargets(executed, steps);
      ghost var db1 := connection.State();
      var rolledBack: seq<Version> := [];
      for i := 0 to |toRollback|
        invariant connection.Valid()
        invariant RollbackEach(connection.rejected, db1, platform, available, toRollback[..i]) == Progress(connection.State(), rolledBack, Pass)
      {
        RollbackEachNext(connection.rejected, db1, platform, available, toRollback, i);
        var version := toRollback[i];
        if version in available {
          o := RollbackVersion(available[version], version);
          if o.Fail? {
            RollbackEachAbort(connection.rejected, db1, platform, available, toRollback, i + 1);
            return Err(o.error);
          }
          rolledBack := rolledBack + [version];
        }
      }
      assert toRollback[..|toRollback|] == toRollback;
      r := Ok(rolledBack);
    }

    /** `getStatus()`. */
    method GetStatus() returns (r: Result<seq<StatusRow>, Error>)
      requires connection.Valid()
      modifies connection
      ensures connection.Valid()
      ensures Report(connection.State(), r) == StatusRun(connection.rejected, old(connection.State()), tableSql, platform, registry)
    {
      var o := EnsureMigrationTable();
      if o.Fail? {
        return Err(o.error);
      }
      var executed := GetExecutedMigrations();
      var available, versions := GetAvailableMigrations();
      ghost var units := Units(versions, available);
      ghost var db1 := connection.State();
      assert StatusRun(connection.rejected, old(connection.State()), tableSql, platform, registry)
        == Report(db1, Ok(StatusRows(units, executed)));
      var status: seq<StatusRow> := [];
      for i := 0 to |versions|
        invariant connection.State() == db1
        invariant status == StatusRows(units[..i], executed)
      {
        StatusRowsNext(units, executed, i);
        var version := versions[i];
        assert units[i] == (version, available[version]);
        status := status + [StatusRow(version, version in executed, available[version].name)];
      }
      assert units[..|versions|] == units;
      r := Ok(status);
    }
  }

  /** One more directory entry of `getAvailableMigrations()`'s loop. */
  lemma EntriesNext(classes: seq<Declared>, files: seq<string>, i: nat)
    requires i < |files|
    ensures Entries(classes, files[..i + 1]) == Entries(classes, files[..i]) + OptionToSeq(Discover(classes, files[i]))
  {
    assert files[..i + 1][..i] == files[..i];
  }

  /** One more discovered migration: its version maps to its class and joins the
      sorted versions. */
  lemma EntriesExtend(es: seq<(Version, Found)>, e: (Version, Found))
    ensures ToMap(es + [e]) == ToMap(es)[e.0 := e.1]
    ensures SortedVersions(es + [e]) == Insert(SortedVersions(es), e.0)
  {
    assert (es + [e])[..|es|] == es;
  }

  /** One more row of `getStatus()`'s loop. */
  lemma StatusRowsNext(units: seq<(Version, Found)>, executed: seq<Version>, i: nat)
    requires i < |units|
    ensures StatusRows(units[..i + 1], executed)
      == StatusRows(units[..i], executed) + [StatusRow(units[i].0, units[i].0 in executed, units[i].1.name)]
  {
    assert units[..i + 1][..i] == units[..i];
  }

  /** A class passing the scan's test after none before it is the one the scan returns. */
  lemma FirstNamingShortAt(classes: seq<Declared>, shortName: string, i: nat)
    requires i < |classes| && NamesShortClass(classes[i], shortName)
    requires forall j :: 0 <= j < i ==> !NamesShortClass(classes[j], shortName)
    ensures FirstNamingShort(classes, shortName) == Some(classes[i])
  {
    var r := FirstNamingShort(classes, shortName);
    var k :| 0 <= k < |classes| && classes[k] == r.value && NamesShortClass(classes[k], shortName)
      && forall j :: 0 <= j < k ==> !NamesShortClass(classes[j], shortName);
    assert k == i;
  }

  /** One more pass of `migrate()`'s loop. */
  lemma MigrateEachNext(rejected: set<string>, db: DbState, p: Platform, units: seq<(Version, Found)>, i: nat)
    requires ValidState(db) && i < |units|
    ensures MigrateEach(rejected, db, p, units[..i + 1])
      == MigrateStep(rejected, p, MigrateEach(rejected, db, p, units[..i]), units[i])
  {
    assert units[..i + 1][..i] == units[..i];
  }

  /** An exception in the first `k` pending versions ends `migrate()`'s loop there. */
  lemma {:induction false} MigrateEachAbort(rejected: set<string>, db: DbState, p: Platform, units: seq<(Version, Found)>, k: nat)
    requires ValidState(db)
    requires k <= |units| && MigrateEach(rejected, db, p, units[..k]).outcome.Fail?
    ensures MigrateEach(rejected, db, p, units) == MigrateEach(rejected, db, p, units[..k])
    decreases |units|
  {
    if k < |units| {
      var n := |units| - 1;
      assert units[..n][..k] == units[..k];
      MigrateEachAbort(rejected, db, p, units[..n], k);
      MigrateEachNext(rejected, db, p, units, n);
      assert units[..n + 1] == units;
    } else {
      assert units[..k] == units;
    }
  }

  /** One more pass of `rollback()`'s loop. */
  lemma RollbackEachNext(rejected: set<string>, db: DbState, p: Platform, available: map<Version, Found>, targets: seq<Version>, i: nat)
    requires ValidState(db) && i < |targets|
    ensures RollbackEach(rejected, db, p, available, targets[..i + 1])
      == RollbackStep(rejected, p, available, RollbackEach(rejected, db, p, available, targets[..i]), targets[i])
  {
    assert targets[..i + 1][..i] == targets[..i];
  }

  /** An exception in the first `k` targets ends `rollback()`'s loop there. */
  lemma {:induction false} RollbackEachAbort(rejected: set<string>, db: DbState, p: Platform, available: map<Version, Found>, targets: seq<Version>, k: nat)
    requires ValidState(db)
    requires k <= |targets| && RollbackEach(rejected, db, p, available, targets[..k]).outcome.Fail?
    ensures RollbackEach(rejected, db, p, available, targets) == RollbackEach(rejected, db, p, available, targets[..k])
    decreases |targets|
  {
    if k < |targets| {
      var n := |targets| - 1;
      assert targets[..n][..k] == targets[..k];
      RollbackEachAbort(rejected, db, p, available, targets[..n], k);
      RollbackEachNext(rejected, db, p, available, targets, n);
      assert targets[..n + 1] == targets;
    } else {
      assert targets[..k] == targets;
    }
  }
}
