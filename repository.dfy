/** The `categories` table and the two repository operations of the handler:
    the fail-open duplicate query `is_name_duplicate` and the single-row insert `save_category`.
    The MySQL connection, cursor and SQL text are replaced by an abstract table and by
    environment parameters that say which failure, if any, the store produces. */
module Repository {
  import opened Request

  /** A row of `categories`: the store-generated id, the name and the status flag. */
  datatype Category = Category(id: nat, name: string, status: bool)

  /** The table's rows in insertion order and the next auto-increment id. */
  datatype Table = Table(rows: seq<Category>, nextId: nat)

  /** The store's comparison key for `name` (its collation): two names are equal to the
      store, in `WHERE name = %s` and in the unique index, iff their keys are equal.
      The identity is a binary collation; a case-insensitive collation folds case. */
  type Collation = string -> string

  /** The unique constraint on `name`, the primary key on `id`, and `status` always true. */
  ghost predicate WellFormed(t: Table, collate: Collation) {
    (forall i, j :: 0 <= i < j < |t.rows| ==> collate(t.rows[i].name) != collate(t.rows[j].name)) &&
    (forall i, j :: 0 <= i < j < |t.rows| ==> t.rows[i].id != t.rows[j].id) &&
    (forall i :: 0 <= i < |t.rows| ==> t.rows[i].id < t.nextId && t.rows[i].status)
  }

  /** `SELECT COUNT(*) FROM categories WHERE name = %s`. */
  function Count(rows: seq<Category>, collate: Collation, name: string): (n: nat)
    ensures n <= |rows|
    ensures n > 0 <==> exists i :: 0 <= i < |rows| && collate(rows[i].name) == collate(name)
  {
    if rows == [] then 0
    else
      var rest := Count(rows[1..], collate, name);
      assert forall i :: 1 <= i < |rows| ==> rows[i] == rows[1..][i - 1];
      (if collate(rows[0].name) == collate(name) then 1 else 0) + rest
  }

  /** What the lookup's connection does: `pymysql.connect` raises, the query (cursor,
      execute or fetchone) raises after connecting, or the query runs. */
  datatype QueryEnv = QueryRuns | QueryConnectFails(msg: string) | QueryFails

  /** The outcome of `is_name_duplicate`: a boolean, or an exception that propagates. */
  datatype Lookup = Answer(duplicate: bool) | LookupRaised(msg: string)

  /** `is_name_duplicate(name)`: `COUNT(*) > 0`, false on any error after connecting
      (fail-open), the connect error propagating. */
  function LookupSpec(t: Table, collate: Collation, name: string, env: QueryEnv): (r: Lookup)
    ensures env.QueryRuns? ==>
      r.Answer? && (r.duplicate <==> exists i :: 0 <= i < |t.rows| && collate(t.rows[i].name) == collate(name))
    ensures env.QueryFails? ==> r == Answer(false)
    ensures r.LookupRaised? <==> env.QueryConnectFails?
  {
    match env
    case QueryConnectFails(msg) => LookupRaised(msg)
    case QueryFails => Answer(false)
    case QueryRuns => Answer(Count(t.rows, collate, name) > 0)
  }

  /** A `pymysql.Error` raised by execute or commit: an IntegrityError with its code,
      or any other `pymysql.Error`. */
  datatype DbError = IntegrityError(code: int) | OtherDbError

  /** What the insert's connection does: `pymysql.connect` raises, execute or commit raises
      the given `pymysql.Error`, they raise an exception that is not a `pymysql.Error`, or the
      statement reaches the table. */
  datatype InsertEnv =
    | InsertRuns
    | InsertConnectFails(msg: string)
    | InsertFails(err: DbError)
    | InsertCrashes(msg: string)

  /** The insert raises an exception that `save_category` does not catch. */
  predicate Propagates(env: InsertEnv) {
    env.InsertConnectFails? || env.InsertCrashes?
  }

  /** The outcome of `save_category`: its return value (None or a response dict),
      or an exception that propagates. */
  datatype SaveResult = Returned(dict: Option<Response>) | SaveRaised(msg: string)

  datatype InsertOutcome = InsertOutcome(result: SaveResult, table: Table)

  /** MySQL's ER_DUP_ENTRY, the code the unique index raises. */
  const DuplicateEntryCode := 1062

  const DuplicateDict := Response(400, "El nombre de la categoría ya existe. Por favor, elige otro.", None)
  const SaveErrorDict := Response(500, "Error al guardar la categoría. Por favor, inténtalo de nuevo más tarde.", None)

  /** The table after a committed `INSERT INTO categories (name, status) VALUES (%s, true)`. */
  function Inserted(t: Table, name: string): (u: Table)
    ensures |u.rows| == |t.rows| + 1 && u.rows[..|t.rows|] == t.rows
    ensures u.rows[|t.rows|].name == name && u.rows[|t.rows|].status
  {
    Table(t.rows + [Category(t.nextId, name, true)], t.nextId + 1)
  }

  /** The error execute or commit raises: the injected one, or, when the statement reaches
      the table, ER_DUP_ENTRY exactly when the name collides under the collation. */
  function ExecuteError(t: Table, collate: Collation, name: string, env: InsertEnv): (e: Option<DbError>)
    requires !Propagates(env)
    ensures env.InsertRuns? ==>
      (e.None? <==> forall i :: 0 <= i < |t.rows| ==> collate(t.rows[i].name) != collate(name))
    ensures env.InsertRuns? && e.Some? ==> e.value == IntegrityError(DuplicateEntryCode)
  {
    match env
    case InsertFails(err) => Some(err)
    case InsertRuns =>
      if Count(t.rows, collate, name) > 0 then Some(IntegrityError(DuplicateEntryCode)) else None
  }

  /** `save_category(name, headers)`: commits the row and returns None; or commits nothing and
      returns the 400 dict on error 1062, None on any other IntegrityError, the 500 dict on any
      other `pymysql.Error`; a connect error or an exception that is not a `pymysql.Error`
      propagates. */
  function InsertSpec(t: Table, collate: Collation, name: string, env: InsertEnv): (o: InsertOutcome)
    ensures o.table == t || o.table == Inserted(t, name)
    ensures o.table != t ==> o.result == Returned(None)
    ensures o.table != t <==>
      env.InsertRuns? && forall i :: 0 <= i < |t.rows| ==> collate(t.rows[i].name) != collate(name)
    ensures o.result.SaveRaised? <==> Propagates(env)
    ensures o.result == Returned(Some(DuplicateDict)) <==>
      env == InsertFails(IntegrityError(DuplicateEntryCode)) ||
      (env.InsertRuns? && exists i :: 0 <= i < |t.rows| && collate(t.rows[i].name) == collate(name))
    ensures o.result == Returned(Some(SaveErrorDict)) <==> env == InsertFails(OtherDbError)
    ensures env.InsertFails? && env.err.IntegrityError? && env.err.code != DuplicateEntryCode ==>
      o == InsertOutcome(Returned(None), t)
  {
    if Propagates(env) then InsertOutcome(SaveRaised(env.msg), t)
    else
      match ExecuteError(t, collate, name, env)
      case None => InsertOutcome(Returned(None), Inserted(t, name))
      case Some(IntegrityError(code)) =>
        InsertOutcome(Returned(if code == DuplicateEntryCode then Some(DuplicateDict) else None), t)
      case Some(OtherDbError) => InsertOutcome(Returned(Some(SaveErrorDict)), t)
  }

  /** Whatever the environment does, an insert keeps the constraints of the table. */
  lemma InsertKeepsWellFormed(t: Table, collate: Collation, name: string, env: InsertEnv)
    requires WellFormed(t, collate)
    ensures WellFormed(InsertSpec(t, collate, name, env).table, collate)
  {
    var u := InsertSpec(t, collate, name, env).table;
    if u != t {
      assert u == Inserted(t, name);
      var n := |t.rows|;
      forall i, j | 0 <= i < j < |u.rows|
        ensures collate(u.rows[i].name) != collate(u.rows[j].name)
      {
        if j == n {
          assert u.rows[i] == t.rows[i];
        } else {
          assert u.rows[i] == t.rows[i] && u.rows[j] == t.rows[j];
        }
      }
      forall i, j | 0 <= i < j < |u.rows|
        ensures u.rows[i].id != u.rows[j].id
      {
        assert u.rows[i] == t.rows[i];
      }
    }
  }

  /** The live `categories` table behind one store, and the connections currently open to it. */
  class CategoryStore {
    const collate: Collation
    var rows: seq<Category>
    var nextId: nat
    var openConnections: nat

    function Snapshot(): Table
      reads this
    {
      Table(rows, nextId)
    }

    /** Between operations the table satisfies its constraints and no connection is open. */
    ghost predicate Valid()
      reads this
    {
      WellFormed(Snapshot(), collate) && openConnections == 0
    }

    /** An empty table whose auto-increment starts at 1. */
    constructor (collate: Collation)
      ensures Valid() && this.collate == collate
      ensures Snapshot() == Table([], 1)
    {
      this.collate := collate;
      rows := [];
      nextId := 1;
      openConnections := 0;
    }

    /** `is_name_duplicate(name)`: the connection is closed on every path that opened it. */
    method IsNameDuplicate(name: string, env: QueryEnv) returns (r: Lookup)
      requires Valid()
      modifies this`openConnections
      ensures Valid() && Snapshot() == old(Snapshot())
      ensures r == LookupSpec(Snapshot(), collate, name, env)
    {
      if env.QueryConnectFails? {
        return LookupRaised(env.msg);
      }
      openConnections := openConnections + 1;
      if env.QueryFails? {
        r := Answer(false);
      } else {
        var count := Count(rows, collate, name);
        r := Answer(count > 0);
      }
      openConnections := openConnections - 1;
    }

    /** `save_category(name, headers)`: at most one committed row, the connection closed on
        every path that opened it. */
    method SaveCategory(name: string, env: InsertEnv) returns (r: SaveResult)
      requires Valid()
      modifies this`rows, this`nextId, this`openConnections
      ensures Valid()
      ensures InsertOutcome(r, Snapshot()) == InsertSpec(old(Snapshot()), collate, name, env)
    {
      if env.InsertConnectFails? {
        return SaveRaised(env.msg);
      }
      InsertKeepsWellFormed(Snapshot(), collate, name, env);
      openConnections := openConnections + 1;
      if env.InsertCrashes? {
        openConnections := openConnections - 1;
        return SaveRaised(env.msg);
      }
      var err := ExecuteError(Snapshot(), collate, name, env);
      match err {
        case None =>
          rows := rows + [Category(nextId, name, true)];
          nextId := nextId + 1;
          r := Returned(None);
        case Some(IntegrityError(code)) =>
          r := Returned(if code == DuplicateEntryCode then Some(DuplicateDict) else None);
        case Some(OtherDbError) =>
          r := Returned(Some(SaveErrorDict));
      }
      openConnections := openConnections - 1;
    }
  }
}
