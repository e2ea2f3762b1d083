/**
 * `com.ll.simpleDb.Sql`, the older statement helper: it collects fragments
 * and parameters like its successor, but sends the buffer untrimmed, takes
 * no class token, and reports every SQL failure with a fixed message that
 * names the statement.
 */
module SimpleDbSql {
  import opened Jdbc
  import opened JavaText

  /** The message `insert` and `selectRows` raise; the misspelling is the source's. */
  const ExcutingPrefix := "Error excuting SQL : "
  /** The message `update` and `delete` raise. */
  const ExecutingPrefix := "Error executing SQL: "

  /**
   * The text sent to the database is the buffer as appended, so once any
   * fragment is in it, it ends with the space `append` added and differs
   * from its own trim.
   */
  lemma RawTextKeepsTrailingSpace(fragments: seq<string>)
    requires fragments != []
    ensures var text := Joined(fragments); text != [] && text[|text| - 1] == ' '
    ensures Trim(Joined(fragments)) != Joined(fragments)
  {
    var text := Joined(fragments);
    assert text[|text| - 1] == ' ';
  }

  /** The `HashMap` a row is read into: column name to value, a later column overwriting an earlier one. */
  function NameMap(cells: Row): (m: map<string, JavaObject>)
    ensures forall k :: k in m <==> k in ColumnNames(cells)
  {
    if cells == [] then map[]
    else
      var last := cells[|cells| - 1];
      assert ColumnNames(cells) == ColumnNames(cells[..|cells| - 1]) + [last.columnName];
      NameMap(cells[..|cells| - 1])[last.columnName := last.value]
  }

  function ColumnNames(cells: Row): seq<string>
  {
    seq(|cells|, i requires 0 <= i < |cells| => cells[i].columnName)
  }

  /** A name maps to the value of the last column that carries it. */
  lemma {:induction false} NameMapLookup(cells: Row, j: nat)
    requires j < |cells|
    requires forall i :: j < i < |cells| ==> cells[i].columnName != cells[j].columnName
    ensures cells[j].columnName in NameMap(cells) && NameMap(cells)[cells[j].columnName] == cells[j].value
  {
    if j < |cells| - 1 {
      NameMapLookup(cells[..|cells| - 1], j);
    }
  }

  /**
   * Whenever the query returns a row, the list `selectRows()` returns as
   * written is shorter than the intended one: every row is lost.
   */
  lemma RowsAreLost(rs: ResultRows)
    requires rs != []
    ensures var intended := seq(|rs|, i requires 0 <= i < |rs| => NameMap(rs[i]));
      |intended| == |rs| && intended != [] && intended[0] == NameMap(rs[0])
  {
  }

  class Sql {
    var params: seq<JavaObject>
    /** The `StringBuilder` contents: every fragment followed by one space. */
    var queryBuilder: string
    ghost var fragments: seq<string>
    /** The database reached through `DriverManager` with the `SimpleDb` URL and credentials. */
    const db: Driver

    ghost predicate Valid()
      reads this
    {
      queryBuilder == Joined(fragments)
    }

    constructor (db: Driver)
      ensures Valid() && this.db == db
      ensures params == [] && queryBuilder == [] && fragments == []
    {
      this.db := db;
      queryBuilder := [];
      params := [];
      fragments := [];
    }

    /** `append(query)`: the buffer grows by the fragment and one space; the parameters stay. */
    method Append(query: string) returns (self: Sql)
      requires Valid()
      modifies this
      ensures Valid() && self == this
      ensures queryBuilder == old(queryBuilder) + query + " "
      ensures fragments == old(fragments) + [query]
      ensures params == old(params)
    {
      queryBuilder := queryBuilder + query + " ";
      fragments := fragments + [query];
      assert fragments[..|fragments| - 1] == old(fragments);
      self := this;
    }

    /** `append(query, parameter...)`: as `append(query)`, then each parameter is added in order. */
    method AppendWith(query: string, parameter: seq<JavaObject>) returns (self: Sql)
      requires Valid()
      modifies this
      ensures Valid() && self == this
      ensures queryBuilder == old(queryBuilder) + query + " "
      ensures fragments == old(fragments) + [query]
      ensures params == old(params) + parameter
    {
      queryBuilder := queryBuilder + query + " ";
      fragments := fragments + [query];
      assert fragments[..|fragments| - 1] == old(fragments);
      for i := 0 to |parameter|
        invariant Valid() && queryBuilder == old(queryBuilder) + query + " "
        invariant fragments == old(fragments) + [query]
        invariant params == old(params) + parameter[..i]
      {
        params := params + [parameter[i]];
        assert parameter[..i + 1] == parameter[..i] + [parameter[i]];
      }
      assert parameter[..|parameter|] == parameter;
      self := this;
    }

    /**
     * `selectRows()` as written: runs the buffer with no parameters bound.
     * Each row is read into a `HashMap` keyed by column name, but the map is
     * never added to the list, so a successful query always yields the empty
     * list.
     */
    method SelectRows() returns (r: Result<seq<map<string, JavaObject>>, Error>)
      ensures db.executeQuery(queryBuilder, map[]).Failure? ==> r == Failure(RuntimeFailure(ExcutingPrefix + queryBuilder))
      ensures db.executeQuery(queryBuilder, map[]).Success? ==> r == Success([])
    {
      var sql := queryBuilder;
      match db.executeQuery(sql, map[])
      case Failure(_) =>
        r := Failure(RuntimeFailure(ExcutingPrefix + sql));
      case Success(resultSet) =>
        var rows: seq<map<string, JavaObject>> := [];
        for cursor := 0 to |resultSet| {
          var row := ReadRow(resultSet[cursor]);
        }
        r := Success(rows);
    }

    /** `selectRows()` with each row's map added to the list, as its comment intends. */
    method SelectRowsCollected() returns (r: Result<seq<map<string, JavaObject>>, Error>)
      ensures db.executeQuery(queryBuilder, map[]).Failure? ==> r == Failure(RuntimeFailure(ExcutingPrefix + queryBuilder))
      ensures db.executeQuery(queryBuilder, map[]).Success? ==>
        var rs := db.executeQuery(queryBuilder, map[]).value;
        && r.Success? && |r.value| == |rs|
        && forall i :: 0 <= i < |rs| ==> r.value[i] == NameMap(rs[i])
    {
      var sql := queryBuilder;
      match db.executeQuery(sql, map[])
      case Failure(_) =>
        r := Failure(RuntimeFailure(ExcutingPrefix + sql));
      case Success(resultSet) =>
        var rows: seq<map<string, JavaObject>> := [];
        for cursor := 0 to |resultSet|
          invariant |rows| == cursor
          invariant forall k :: 0 <= k < cursor ==> rows[k] == NameMap(resultSet[k])
        {
          var row := ReadRow(resultSet[cursor]);
          rows := rows + [row];
        }
        r := Success(rows);
    }

    /** The inner loop of `selectRows()`: `row.put(getColumnName(i), getObject(i))` for every column. */
    method ReadRow(cells: Row) returns (row: map<string, JavaObject>)
      ensures row == NameMap(cells)
    {
      row := map[];
      for i := 0 to |cells|
        invariant row == NameMap(cells[..i])
      {
        assert cells[..i + 1][..i] == cells[..i];
        row := row[cells[i].columnName := cells[i].value];
      }
      assert cells[..|cells|] == cells;
    }

    /** `setObject(1 + i, params.get(i))` for every i, as the three writers do it inline. */
    method BindParams() returns (bindings: Bindings)
      ensures bindings == Positional(params)
    {
      bindings := map[];
      for i := 0 to |params|
        invariant BindsPositionally(bindings, params[..i])
      {
        bindings := bindings[1 + i := params[i]];
      }
      assert params[..|params|] == params;
      PositionalIsUnique(bindings, params);
    }

    /**
     * `insert()`: the first generated key; a statement that fails, or that
     * generates no key, raises the same RuntimeException naming the text.
     */
    method Insert() returns (r: Result<Int64, Error>)
      ensures var outcome := db.executeUpdate(queryBuilder, Positional(params));
        r.Success? <==> outcome.Success? && |outcome.value.generatedKeys| > 0
      ensures var outcome := db.executeUpdate(queryBuilder, Positional(params));
        r.Success? ==> r.value == outcome.value.generatedKeys[0]
      ensures r.Failure? ==> r.error == RuntimeFailure(ExcutingPrefix + queryBuilder)
    {
      var sql := queryBuilder;
      var bindings := BindParams();
      // `execute()` on a data-changing statement, read back through
      // `getGeneratedKeys()`: the driver's update answer
      match db.executeUpdate(sql, bindings)
      case Failure(_) =>
        r := Failure(RuntimeFailure(ExcutingPrefix + sql));
      case Success(report) =>
        if |report.generatedKeys| > 0 {
          r := Success(report.generatedKeys[0]);
        } else {
          // throw new SQLException(), caught by the same handler
          r := Failure(RuntimeFailure(ExcutingPrefix + sql));
        }
    }

    /** `update()`: the affected-row count of the bound statement. */
    method Update() returns (r: Result<Int32, Error>)
      ensures var outcome := db.executeUpdate(queryBuilder, Positional(params));
        && (outcome.Success? ==> r == Success(outcome.value.updateCount))
        && (outcome.Failure? ==> r == Failure(RuntimeFailure(ExecutingPrefix + queryBuilder)))
    {
      var sql := queryBuilder;
      var bindings := BindParams();
      match db.executeUpdate(sql, bindings)
      case Failure(_) =>
        r := Failure(RuntimeFailure(ExecutingPrefix + sql));
      case Success(report) =>
        r := Success(report.updateCount);
    }

    /** `delete()`: the same steps as `update()`. */
    method Delete() returns (r: Result<Int32, Error>)
      ensures var outcome := db.executeUpdate(queryBuilder, Positional(params));
        && (outcome.Success? ==> r == Success(outcome.value.updateCount))
        && (outcome.Failure? ==> r == Failure(RuntimeFailure(ExecutingPrefix + queryBuilder)))
    {
      var sql := queryBuilder;
      var bindings := BindParams();
      match db.executeUpdate(sql, bindings)
      case Failure(_) =>
        r := Failure(RuntimeFailure(ExecutingPrefix + sql));
      case Success(report) =>
        r := Success(report.updateCount);
    }

    /** Once anything has been appended, the text every operation sends ends with a space and is not trimmed. */
    lemma SentTextIsUntrimmed()
      requires Valid() && fragments != []
      ensures queryBuilder[|queryBuilder| - 1] == ' ' && Trim(queryBuilder) != queryBuilder
    {
      RawTextKeepsTrailingSpace(fragments);
    }
  }
}
