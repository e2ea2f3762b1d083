/**
 * The part of JDBC the SQL helpers talk to, reduced to values: the objects
 * passed as parameters and returned by the driver, the rows of a result set,
 * the positional bindings of a prepared statement, the exceptions the helpers
 * raise, and the database itself as an oracle that answers a statement text
 * together with its bindings.
 */
module Jdbc {

  /** Java `int` and `long`. */
  type Int32 = x: int | -0x8000_0000 <= x < 0x8000_0000
  type Int64 = x: int | -0x8000_0000_0000_0000 <= x < 0x8000_0000_0000_0000

  datatype Option<+T> = None | Some(value: T)

  datatype Result<+T, +E> = Success(value: T) | Failure(error: E)

  /** A Java object as handed to `setObject` or returned by `getObject`. */
  datatype JavaObject =
    | Null
    | LongObject(n: Int64)
    | IntegerObject(i: Int32)
    | StringObject(s: string)
    | BooleanObject(b: bool)
    | TimestampObject(millis: int)
    | OtherObject(id: int)

  /** The `java.sql.Types` codes that the row decoder tells apart. */
  const BIGINT: int := -5
  const BOOLEAN: int := 16
  const TIMESTAMP: int := 93

  /**
   * One column of the current row, as the result set's metadata reports it:
   * `getColumnName`, `getColumnLabel`, `getColumnType`, and the raw value.
   */
  datatype Cell = Cell(columnName: string, columnLabel: string, columnType: int, value: JavaObject)

  type Row = seq<Cell>

  /** The rows a query returns, in cursor order; a result set always has at least one column. */
  type ResultRows = rs: seq<Row> | forall i :: 0 <= i < |rs| ==> rs[i] != []

  /** The parameters bound on a prepared statement: 1-based index to value. */
  type Bindings = map<int, JavaObject>

  /** `b` binds index i + 1 to `ps[i]` for every i, and binds no other index. */
  ghost predicate BindsPositionally(b: Bindings, ps: seq<JavaObject>)
  {
    && (forall k :: k in b <==> 1 <= k <= |ps|)
    && (forall i :: 0 <= i < |ps| ==> i + 1 in b && b[i + 1] == ps[i])
  }

  /** The bindings a `setObject(i + 1, ps[i])` loop leaves on a fresh statement. */
  function Positional(ps: seq<JavaObject>): (b: Bindings)
    ensures BindsPositionally(b, ps)
  {
    if ps == [] then map[]
    else
      var b := Positional(ps[..|ps| - 1]);
      b[|ps| := ps[|ps| - 1]]
  }

  /** Positional binding determines the bindings completely. */
  lemma PositionalIsUnique(b: Bindings, ps: seq<JavaObject>)
    requires BindsPositionally(b, ps)
    ensures b == Positional(ps)
  {
    var p := Positional(ps);
    assert b.Keys == p.Keys by {
      forall k ensures k in b <==> k in p {
      }
    }
    forall k | k in b
      ensures b[k] == p[k]
    {
      var i := k - 1;
      assert b[i + 1] == ps[i] == p[i + 1];
    }
  }

  /** What the driver reports after an update: `getUpdateCount()` and the `getGeneratedKeys()` column 1. */
  datatype UpdateReport = UpdateReport(updateCount: Int32, generatedKeys: seq<Int64>)

  /**
   * The database behind a connection. Each function receives the statement
   * text and the bindings set on it, and answers either the outcome or the
   * message of the `SQLException` raised while preparing, binding or
   * executing, and, for `com.ll.simpleDb.Sql`, which connects anew on every
   * call, while connecting. It is a fixed function: running the same
   * statement twice gives the same answer.
   */
  datatype Driver = Driver(
    executeUpdate: (string, Bindings) -> Result<UpdateReport, string>,
    executeQuery: (string, Bindings) -> Result<ResultRows, string>)

  /** The exceptions the helpers let escape. */
  datatype Error =
    | IllegalArgument(message: string)
    | NoSuchElement(detail: Option<string>)
    | RuntimeFailure(message: string)   // a RuntimeException wrapping an SQLException
    | ClassCast                          // a failed cast of a returned object
    | NullPointer
}
