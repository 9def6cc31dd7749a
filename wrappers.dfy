/** Option, Result and Outcome: the failure-carrying values the model returns where the
    PHP code returns null or throws. */
module Wrappers {

  datatype Option<+T> = None | Some(value: T)

  datatype Result<+T, +E> = Ok(value: T) | Err(error: E)

  /** Outcome of an operation that yields nothing but may fail (a PHP `void` that may throw). */
  datatype Outcome<+E> = Pass | Fail(error: E)

  /** The statements an optional statement contributes: none for null, one otherwise. */
  function OptionToSeq<T>(o: Option<T>): (r: seq<T>)
    ensures o.None? <==> r == []
    ensures o.Some? ==> r == [o.value]
  {
    match o
    case None => []
    case Some(v) => [v]
  }

  /** Runs a list of steps that may fail, keeping their values in order: the first
      failure aborts the rest (a PHP loop whose body may throw). */
  function Collect<T, E>(rs: seq<Result<T, E>>): (r: Result<seq<T>, E>)
    ensures r.Ok? ==> |r.value| == |rs|
  {
    if rs == [] then Ok([])
    else
      match Collect(rs[..|rs| - 1])
      case Err(e) => Err(e)
      case Ok(vs) =>
        match rs[|rs| - 1]
        case Err(e) => Err(e)
        case Ok(v) => Ok(vs + [v])
  }

  /** Collecting succeeds exactly when every step does, keeps each step's value at its
      place, and otherwise reports the first failing step's error. */
  lemma {:induction false} CollectSpec<T, E>(rs: seq<Result<T, E>>)
    ensures Collect(rs).Ok? <==> forall i :: 0 <= i < |rs| ==> rs[i].Ok?
    ensures Collect(rs).Ok? ==> forall i :: 0 <= i < |rs| ==> rs[i] == Ok(Collect(rs).value[i])
    ensures Collect(rs).Err? ==> exists i :: (
      && 0 <= i < |rs| && rs[i].Err?
      && (forall j :: 0 <= j < i ==> rs[j].Ok?)
      && Collect(rs).error == rs[i].error)
  {
    if rs != [] {
      var n := |rs| - 1;
      CollectSpec(rs[..n]);
      assert forall i :: 0 <= i < n ==> rs[..n][i] == rs[i];
    }
  }

  /** One more step: its value is appended, or the first failure is kept. */
  lemma CollectExtend<T, E>(rs: seq<Result<T, E>>, i: nat)
    requires i < |rs|
    ensures Collect(rs[..i + 1])
      == if Collect(rs[..i]).Err? then Collect(rs[..i])
         else if rs[i].Err? then Err(rs[i].error)
         else Ok(Collect(rs[..i]).value + [rs[i].value])
  {
    assert rs[..i + 1][..i] == rs[..i];
  }

  /** A failure among the first `k` steps is the failure of the whole list. */
  lemma {:induction false} CollectAbort<T, E>(rs: seq<Result<T, E>>, k: nat)
    requires k <= |rs| && Collect(rs[..k]).Err?
    ensures Collect(rs) == Collect(rs[..k])
    decreases |rs|
  {
    if k < |rs| {
      var n := |rs| - 1;
      assert rs[..n][..k] == rs[..k];
      CollectAbort(rs[..n], k);
    } else {
      assert rs[..k] == rs;
    }
  }

  /** Concatenation of a list of lists (PHP `array_merge(...$lists)`). */
  function Flatten<T>(ss: seq<seq<T>>): (r: seq<T>)
  {
    if ss == [] then [] else Flatten(ss[..|ss| - 1]) + ss[|ss| - 1]
  }

  lemma FlattenAppend<T>(ss: seq<seq<T>>, s: seq<T>)
    ensures Flatten(ss + [s]) == Flatten(ss) + s
  {
    assert (ss + [s])[..|ss|] == ss;
  }

  /** Lists of one element each flatten to their elements. */
  lemma {:induction false} FlattenSingletons<T>(ss: seq<seq<T>>, xs: seq<T>)
    requires |ss| == |xs| && forall i :: 0 <= i < |ss| ==> ss[i] == [xs[i]]
    ensures Flatten(ss) == xs
  {
    if ss != [] {
      var n := |ss| - 1;
      FlattenSingletons(ss[..n], xs[..n]);
      assert xs == xs[..n] + [xs[n]];
    }
  }
}

/** The exceptions the modelled code raises, one constructor per distinct cause. */
module Errors {

  datatype Error =
    /** `Unknown column type: %s` raised by getColumnType. */
    | UnknownColumnType(abstractType: string)
    /** `Unsupported database type: %s` raised while choosing a platform. */
    | UnsupportedDatabaseType(dbType: string)
    /** `Migration class %s must extend ...` raised by runMigration. */
    | NotAMigration(className: string)
    /** The database refused a statement (an execution error, passed on unchanged). */
    | StatementRejected(sql: string)
}
