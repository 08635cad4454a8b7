/**
 * The one-row tables of the module (module_version, baseurl, locale).
 * Each has no key: the row is created by the first tenant init, and a
 * trigger created right after it refuses every later INSERT and every
 * DELETE with SQLSTATE P0001, which the init itself swallows. Reading
 * takes the first row; writing is an UPDATE of every row.
 */
module Singleton {
  import opened Common

  /** The table's rows and whether the singleton trigger exists yet. */
  datatype Table<T> = Table(rows: seq<T>, trigger: bool)

  /** An operation's result and the table it leaves. */
  datatype Change<T> = Change(result: Result<()>, table: Table<T>)

  /** The state every init after the first one keeps: guarded, one row. */
  predicate Single<T>(t: Table<T>) {
    t.trigger && |t.rows| == 1
  }

  /**
   * init: INSERT the default row (there is no key for ON CONFLICT to
   * catch, so only the trigger stops it, and its error is swallowed), then
   * create the trigger.
   */
  function InitSpec<T>(t: Table<T>, default: T): Table<T> {
    Table(if t.trigger then t.rows else t.rows + [default], true)
  }

  /** Any other INSERT: refused once the trigger exists. */
  function InsertSpec<T>(t: Table<T>, v: T): Change<T> {
    if t.trigger then Change(Err(PgError(RaiseException)), t)
    else Change(Ok(()), Table(t.rows + [v], t.trigger))
  }

  /** DELETE of the rows: refused once the trigger exists. */
  function DeleteSpec<T>(t: Table<T>): Change<T> {
    if t.trigger then Change(Err(PgError(RaiseException)), t)
    else Change(Ok(()), Table([], t.trigger))
  }

  /** rowSet.iterator().next(): the first row; an empty table has none. */
  function ReadSpec<T>(t: Table<T>): Result<T> {
    if t.rows == [] then Err(Failure("NoSuchElementException")) else Ok(t.rows[0])
  }

  /** UPDATE table SET ...: every row becomes v. */
  function UpdateSpec<T>(t: Table<T>, v: T): Table<T> {
    Table(seq(|t.rows|, _ => v), t.trigger)
  }

  /** The first init of a fresh tenant leaves exactly the default row, guarded. */
  lemma InitFresh<T>(default: T)
    ensures InitSpec(Table([], false), default) == Table([default], true)
    ensures Single(InitSpec(Table([], false), default))
    ensures ReadSpec(InitSpec(Table([], false), default)) == Ok(default)
  {
  }

  /** A later init changes nothing, whatever its default. */
  lemma InitAgain<T>(t: Table<T>, default: T)
    requires Single(t)
    ensures InitSpec(t, default) == t
  {
  }

  /**
   * A guarded table keeps exactly one row whatever is done to it: inserts
   * and deletes fail with P0001 and leave it alone, and an update
   * overwrites the row, which is what the next read returns.
   */
  lemma SingleKept<T>(t: Table<T>, v: T, w: T)
    requires Single(t)
    ensures InsertSpec(t, v) == Change(Err(PgError(RaiseException)), t)
    ensures DeleteSpec(t) == Change(Err(PgError(RaiseException)), t)
    ensures Single(UpdateSpec(t, v)) && Single(InitSpec(t, w))
    ensures ReadSpec(UpdateSpec(t, v)) == Ok(v)
    ensures ReadSpec(InitSpec(UpdateSpec(t, v), w)) == Ok(v)
  {
  }

  /** Without a trigger nothing stops a second row: two inits before the
      trigger exists would leave two. */
  lemma UnguardedInsert<T>(t: Table<T>, v: T)
    requires !t.trigger
    ensures InsertSpec(t, v).result.Ok? && |InsertSpec(t, v).table.rows| == |t.rows| + 1
  {
  }

  /** A one-row table in the database. */
  class SingletonTable<T> {
    var rows: seq<T>
    var trigger: bool

    function State(): Table<T>
      reads this
    {
      Table(rows, trigger)
    }

    /** A schema before the first tenant init: no rows, no trigger. */
    constructor ()
      ensures State() == Table([], false)
    {
      rows, trigger := [], false;
    }

    method Init(default: T)
      modifies this
      ensures State() == InitSpec(old(State()), default)
    {
      if !trigger {
        rows := rows + [default];
      }
      trigger := true;
    }

    method Insert(v: T) returns (r: Result<()>)
      modifies this
      ensures Change(r, State()) == InsertSpec(old(State()), v)
    {
      if trigger {
        return Err(PgError(RaiseException));
      }
      rows := rows + [v];
      r := Ok(());
    }

    method Delete() returns (r: Result<()>)
      modifies this
      ensures Change(r, State()) == DeleteSpec(old(State()))
    {
      if trigger {
        return Err(PgError(RaiseException));
      }
      rows := [];
      r := Ok(());
    }

    method Read() returns (r: Result<T>)
      ensures r == ReadSpec(State())
    {
      if |rows| == 0 {
        return Err(Failure("NoSuchElementException"));
      }
      r := Ok(rows[0]);
    }

    method Update(v: T)
      modifies this
      ensures State() == UpdateSpec(old(State()), v)
    {
      rows := seq(|rows|, _ => v);
    }
  }
}
