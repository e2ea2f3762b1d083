/**
 * `com.ll.database.Sql`: one statement's text (through a QueryBuilder) and
 * its positional parameters, the `IN (?)` expansion, the dispatch of the
 * built text on its first keyword, and the decoding of the rows a query
 * returns.
 */
module DatabaseSql {
  import opened Jdbc
  import opened JavaText
  import opened RowDecoding
  import opened DatabaseQueryBuilder

  const InClauseMessage := "IN clause requires at least one parameter."
  const RunFailurePrefix := "SQL Execution failed: "
  const NoDataMessage := "No data found"
  const UnsupportedPrefix := "Unsupported class type: "

  /**
   * The class token handed to `run`, told apart by its simple name; `Other`
   * stands for every class whose simple name is none of the six.
   */
  datatype JavaClass =
    | StringClass
    | ListClass
    | MapClass
    | LocalDateTimeClass
    | LongClass
    | BooleanClass
    | Other(simpleName: UnlistedName)

  /** The simple names the switch of `parseResultSet` has a case for. */
  const SwitchNames: set<string> := {"String", "List", "Map", "LocalDateTime", "Long", "Boolean"}

  /** A simple name that reaches the `default` branch of that switch. */
  type UnlistedName = s: string | s !in SwitchNames witness "Integer"

  /** `update()` and `delete()` pass `Integer.class`. */
  const IntegerClass: JavaClass := Other("Integer")

  /** The three paths of `run`. */
  datatype StatementKind = InsertKind | SelectKind | UpdateKind

  /** `run` tests the built text for an "INSERT" prefix first, then for "SELECT". */
  function Classify(sql: string): (k: StatementKind)
    ensures k == InsertKind <==> StartsWith(sql, "INSERT")
    ensures k == SelectKind <==> !StartsWith(sql, "INSERT") && StartsWith(sql, "SELECT")
  {
    if StartsWith(sql, "INSERT") then InsertKind
    else if StartsWith(sql, "SELECT") then SelectKind
    else UpdateKind
  }

  /** `String.join(", ", Collections.nCopies(n, "?"))`. */
  function Placeholders(n: nat): string
  {
    Join(", ", Copies(n, "?"))
  }

  lemma {:induction false} PlaceholdersCount(n: nat)
    ensures Count(Placeholders(n), '?') == n
  {
    if n == 1 {
      assert Placeholders(1) == "?";
    } else if n > 1 {
      PlaceholdersCount(n - 1);
      assert Copies(n, "?")[1..] == Copies(n - 1, "?");
      assert Placeholders(n) == "?" + ", " + Placeholders(n - 1);
      CountConcat("?" + ", ", Placeholders(n - 1), '?');
      CountConcat("?", ", ", '?');
    }
  }

  /** The placeholder list for three parameters, as `appendIn` writes it: "?, ?, ?". */
  lemma ThreePlaceholders()
    ensures Placeholders(3) == "?, ?, ?"
  {
    assert Copies(3, "?") == ["?", "?", "?"];
    assert Copies(3, "?")[1..] == ["?", "?"];
  }

  /**
   * A fragment with one `?`, such as `id IN (?)`: the `?` is replaced by the
   * placeholder list and the text around it is kept.
   */
  lemma InClauseExpansion(pre: string, post: string, n: nat)
    requires Count(pre, '?') == 0 && Count(post, '?') == 0
    ensures ReplaceAll(pre + "?" + post, '?', Placeholders(n)) == pre + Placeholders(n) + post
  {
    ReplaceOne(pre, post, '?', Placeholders(n));
  }

  /**
   * `replace` rewrites every `?` of the fragment, not only the first: a
   * fragment with two `?` and n parameters ends up with both replaced, and
   * so with 2 * n placeholders.
   */
  lemma EveryPlaceholderIsExpanded(a: string, b: string, c: string, n: nat)
    requires Count(a, '?') == 0 && Count(b, '?') == 0 && Count(c, '?') == 0
    ensures ReplaceAll(a + "?" + b + "?" + c, '?', Placeholders(n)) == a + Placeholders(n) + b + Placeholders(n) + c
    ensures Count(ReplaceAll(a + "?" + b + "?" + c, '?', Placeholders(n)), '?') == 2 * n
  {
    ReplaceTwo(a, b, c, '?', Placeholders(n));
    ExpandedPlaceholderCount(a + "?" + b + "?" + c, n);
  }

  /** k placeholders in the fragment become k * n after expansion with n parameters. */
  lemma ExpandedPlaceholderCount(baseQuery: string, n: nat)
    ensures Count(ReplaceAll(baseQuery, '?', Placeholders(n)), '?') == Count(baseQuery, '?') * n
  {
    ReplaceAllCount(baseQuery, '?', Placeholders(n));
    PlaceholdersCount(n);
  }

  /** With a single parameter the fragment is appended as given. */
  lemma SingleParameterKeepsFragment(baseQuery: string)
    ensures ReplaceAll(baseQuery, '?', Placeholders(1)) == baseQuery
  {
    assert Placeholders(1) == "?";
    ReplaceAllSelf(baseQuery, '?');
  }

  /** What `run` returns before its caller's cast. */
  datatype RunValue =
    | Generated(key: Int64)                   // the first generated key, boxed as Long
    | UpdateCount(count: Int32)               // the update count, boxed as Integer
    | ColumnOne(cls: JavaClass, raw: JavaObject) // column 1 of the first row, read with the getter for cls
    | RowResult(row: RowMap)
    | RowsResult(rows: seq<RowMap>)

  /** `parseResultSet`: the shape of the result depends on the class token. */
  function Parse(rs: ResultRows, cls: JavaClass): Result<RunValue, Error>
  {
    if |rs| == 0 then Failure(NoSuchElement(Some(NoDataMessage)))
    else
      var first := rs[0][0].value;
      match cls
      case StringClass => Success(ColumnOne(cls, first))
      case ListClass => Success(RowsResult(seq(|rs|, i requires 0 <= i < |rs| => RowToMap(rs[i]))))
      case MapClass => Success(RowResult(RowToMap(rs[0])))
      case LocalDateTimeClass =>
        if first == Null then Failure(NullPointer) else Success(ColumnOne(cls, first))
      case LongClass => Success(ColumnOne(cls, first))
      case BooleanClass => Success(ColumnOne(cls, first))
      case Other(name) => Failure(IllegalArgument(UnsupportedPrefix + name))
  }

  /** `run(cls)` on the built text `sql` with `bindings` set on the statement. */
  function Execute(sql: string, bindings: Bindings, cls: JavaClass, db: Driver): Result<RunValue, Error>
  {
    match Classify(sql)
    case InsertKind =>
      (match db.executeUpdate(sql, bindings)
       case Failure(message) => Failure(RuntimeFailure(RunFailurePrefix + message))
       case Success(report) =>
         if |report.generatedKeys| > 0 && cls == LongClass then Success(Generated(report.generatedKeys[0]))
         else Success(UpdateCount(report.updateCount)))
    case SelectKind =>
      (match db.executeQuery(sql, bindings)
       case Failure(message) => Failure(RuntimeFailure(RunFailurePrefix + message))
       case Success(rs) => Parse(rs, cls))
    case UpdateKind =>
      (match db.executeUpdate(sql, bindings)
       case Failure(message) => Failure(RuntimeFailure(RunFailurePrefix + message))
       case Success(report) => Success(UpdateCount(report.updateCount)))
  }

  /** Whether the object `run` returned is an instance of the class its caller casts to. */
  predicate InstanceOf(v: RunValue, cls: JavaClass)
  {
    match v
    case Generated(_) => cls == LongClass
    case UpdateCount(_) => cls == IntegerClass
    case ColumnOne(c, _) => c == cls && cls in {StringClass, LongClass, BooleanClass, LocalDateTimeClass}
    case RowResult(_) => cls == MapClass
    case RowsResult(_) => cls == ListClass
  }

  /** The cast each public wrapper applies to what `run` returns. */
  function Cast(cls: JavaClass, r: Result<RunValue, Error>): (c: Result<RunValue, Error>)
    ensures c.Success? ==> InstanceOf(c.value, cls)
  {
    match r
    case Failure(e) => r
    case Success(v) => if InstanceOf(v, cls) then r else Failure(ClassCast)
  }

  /** A successful cast to `Map` is a row and one to `List` a list of rows. */
  lemma CastShape(cls: JavaClass, r: Result<RunValue, Error>)
    ensures Cast(cls, r).Success? && cls == MapClass ==> Cast(cls, r).value.RowResult?
    ensures Cast(cls, r).Success? && cls == ListClass ==> Cast(cls, r).value.RowsResult?
  {
  }

  /**
   * The dispatch is case-sensitive: a statement starting with lower-case
   * `select` or `insert` takes the update-count path, and only the upper-case
   * keywords select the query and insert paths.
   */
  lemma DispatchIsCaseSensitive(s: string)
    ensures StartsWith(s, "select") || StartsWith(s, "insert") ==> Classify(s) == UpdateKind
    ensures StartsWith(s, "SELECT") ==> Classify(s) == SelectKind
    ensures StartsWith(s, "INSERT") ==> Classify(s) == InsertKind
  {
  }

  /**
   * The keyword of the first fragment decides the path: trimming the joined
   * fragments keeps it at the front.
   */
  lemma BuiltStatementKind(fragments: seq<string>)
    requires fragments != []
    ensures StartsWith(fragments[0], "INSERT") ==> Classify(Trim(Joined(fragments))) == InsertKind
    ensures StartsWith(fragments[0], "SELECT") ==> Classify(Trim(Joined(fragments))) == SelectKind
  {
    JoinedStartsWithFirst(fragments);
    var joined := Joined(fragments);
    if StartsWith(fragments[0], "INSERT") {
      assert joined[..6] == fragments[0][..6];
      PrefixSurvivesTrim(joined, "INSERT");
    }
    if StartsWith(fragments[0], "SELECT") {
      assert joined[..6] == fragments[0][..6];
      PrefixSurvivesTrim(joined, "SELECT");
      assert Trim(joined)[..6] == "SELECT";
    }
  }

  /**
   * An INSERT statement: `insert()` gets the first generated key, and fails
   * with a ClassCastException when the driver reports none (the update count
   * is returned as an Integer); `update()` and `delete()` get the update count.
   */
  lemma InsertStatementOutcome(sql: string, bindings: Bindings, db: Driver)
    requires Classify(sql) == InsertKind
    requires db.executeUpdate(sql, bindings).Success?
    ensures var report := db.executeUpdate(sql, bindings).value;
      && (|report.generatedKeys| > 0 ==>
            Cast(LongClass, Execute(sql, bindings, LongClass, db)) == Success(Generated(report.generatedKeys[0])))
      && (|report.generatedKeys| == 0 ==>
            Cast(LongClass, Execute(sql, bindings, LongClass, db)) == Failure(ClassCast))
      && Cast(IntegerClass, Execute(sql, bindings, IntegerClass, db)) == Success(UpdateCount(report.updateCount))
  {
  }

  /** A SELECT that returns no rows throws NoSuchElementException whatever the class token. */
  lemma EmptySelectThrows(sql: string, bindings: Bindings, db: Driver, cls: JavaClass)
    requires Classify(sql) == SelectKind
    requires db.executeQuery(sql, bindings) == Success([])
    ensures Execute(sql, bindings, cls, db) == Failure(NoSuchElement(Some(NoDataMessage)))
  {
  }

  /**
   * Any other statement yields its update count: `update()` and `delete()`
   * return it, and the row-returning wrappers fail their cast.
   */
  lemma OtherStatementOutcome(sql: string, bindings: Bindings, db: Driver)
    requires Classify(sql) == UpdateKind
    requires db.executeUpdate(sql, bindings).Success?
    ensures Cast(IntegerClass, Execute(sql, bindings, IntegerClass, db))
         == Success(UpdateCount(db.executeUpdate(sql, bindings).value.updateCount))
    ensures Cast(MapClass, Execute(sql, bindings, MapClass, db)) == Failure(ClassCast)
    ensures Cast(ListClass, Execute(sql, bindings, ListClass, db)) == Failure(ClassCast)
  {
  }

  /** The cast in `selectLongs`: null, a long read with `getLong`, or a Long object. */
  predicate IsLong(f: Field)
  {
    match f
    case NullField => true
    case LongField(_) => true
    case ObjectField(v) => v.Null? || v.LongObject?
    case DateTimeField(_) => false
    case BooleanField(_) => false
  }

  /** `selectLongs`'s stream: the first value of each row map, cast to Long, in row order. */
  function FirstValues(maps: seq<RowMap>): Result<seq<Field>, Error>
  {
    if maps == [] then Success([])
    else if maps[0] == [] then Failure(NoSuchElement(None))
    else if !IsLong(maps[0][0].value) then Failure(ClassCast)
    else
      match FirstValues(maps[1..])
      case Failure(e) => Failure(e)
      case Success(rest) => Success([maps[0][0].value] + rest)
  }

  /**
   * The stream succeeds exactly when every row's first value casts to Long,
   * and then it keeps the number and the order of the rows.
   */
  lemma {:induction false} FirstValuesShape(maps: seq<RowMap>)
    ensures FirstValues(maps).Success? <==>
      forall i :: 0 <= i < |maps| ==> maps[i] != [] && IsLong(maps[i][0].value)
    ensures FirstValues(maps).Success? ==>
      && |FirstValues(maps).value| == |maps|
      && forall i :: 0 <= i < |maps| ==> FirstValues(maps).value[i] == maps[i][0].value
  {
    if maps != [] {
      FirstValuesShape(maps[1..]);
      if FirstValues(maps).Success? {
        var rest := FirstValues(maps[1..]).value;
        assert FirstValues(maps).value == [maps[0][0].value] + rest;
        forall i | 0 < i < |maps|
          ensures maps[i] != [] && IsLong(maps[i][0].value)
        {
          assert maps[1..][i - 1] == maps[i];
        }
      } else if maps[0] != [] && IsLong(maps[0][0].value) {
        assert !(forall i :: 0 <= i < |maps| - 1 ==> maps[1..][i] != [] && IsLong(maps[1..][i][0].value));
        var i :| 0 <= i < |maps| - 1 && !(maps[1..][i] != [] && IsLong(maps[1..][i][0].value));
        assert maps[1..][i] == maps[i + 1];
      }
    }
  }

  lemma SumAppend(xs: seq<nat>, x: nat)
    ensures Sum(xs + [x]) == Sum(xs) + x
  {
    assert (xs + [x])[..|xs|] == xs;
  }

  class Sql {
    var params: seq<JavaObject>
    /** How many parameters came with each fragment. */
    ghost var paramCounts: seq<nat>
    const queryBuilder: QueryBuilder
    const connection: Driver

    ghost predicate Valid()
      reads this, queryBuilder
    {
      && queryBuilder.Valid()
      && |paramCounts| == |queryBuilder.fragments|
      && Sum(paramCounts) == |params|
    }

    /** Every fragment holds as many `?` as it brought parameters. */
    ghost predicate PlaceholdersMatch()
      reads this, queryBuilder
      requires Valid()
    {
      forall i :: 0 <= i < |paramCounts| ==> Count(queryBuilder.fragments[i], '?') == paramCounts[i]
    }

    /** The text `run` builds. */
    ghost function Statement(): string
      reads this, queryBuilder
    {
      Trim(Joined(queryBuilder.fragments))
    }

    /** What a public wrapper that passes `cls` returns, cast included. */
    ghost function Outcome(cls: JavaClass): (r: Result<RunValue, Error>)
      reads this, queryBuilder
      ensures r.Success? && cls == MapClass ==> r.value.RowResult?
      ensures r.Success? && cls == ListClass ==> r.value.RowsResult?
    {
      var executed := Execute(Statement(), Positional(params), cls, connection);
      CastShape(cls, executed);
      Cast(cls, executed)
    }

    /**
     * Both Java constructors: the connection comes from a ConnectionManager or
     * is given. The model starts from a connection already made.
     */
    constructor (connection: Driver)
      ensures Valid() && fresh(queryBuilder) && this.connection == connection
      ensures params == [] && queryBuilder.fragments == []
    {
      this.connection := connection;
      queryBuilder := new QueryBuilder();
      params := [];
      paramCounts := [];
    }

    /** `append(query, parameters...)`. */
    method Append(query: string, parameters: seq<JavaObject>) returns (self: Sql)
      requires Valid()
      modifies this, queryBuilder
      ensures Valid() && self == this
      ensures queryBuilder.buffer == old(queryBuilder.buffer) + query + " "
      ensures queryBuilder.fragments == old(queryBuilder.fragments) + [query]
      ensures params == old(params) + parameters
      ensures paramCounts == old(paramCounts) + [|parameters|]
      ensures old(PlaceholdersMatch()) ==> (PlaceholdersMatch() <==> Count(query, '?') == |parameters|)
    {
      var builder := queryBuilder.Append(query);
      params := params + parameters;
      paramCounts := paramCounts + [|parameters|];
      SumAppend(old(paramCounts), |parameters|);
      self := this;
    }

    /** `appendIn(baseQuery, parameters...)`: every `?` becomes one placeholder per parameter. */
    method AppendIn(baseQuery: string, parameters: seq<JavaObject>) returns (r: Result<Sql, Error>)
      requires Valid()
      modifies this, queryBuilder
      ensures Valid()
      ensures |parameters| == 0 ==>
        && r == Failure(IllegalArgument(InClauseMessage))
        && params == old(params) && paramCounts == old(paramCounts)
        && queryBuilder.buffer == old(queryBuilder.buffer)
        && queryBuilder.fragments == old(queryBuilder.fragments)
      ensures |parameters| > 0 ==>
        && r == Success(this)
        && queryBuilder.fragments == old(queryBuilder.fragments) + [ReplaceAll(baseQuery, '?', Placeholders(|parameters|))]
        && queryBuilder.buffer == old(queryBuilder.buffer) + ReplaceAll(baseQuery, '?', Placeholders(|parameters|)) + " "
        && params == old(params) + parameters
        && paramCounts == old(paramCounts) + [|parameters|]
      ensures |parameters| > 0 && old(PlaceholdersMatch()) ==> (PlaceholdersMatch() <==> Count(baseQuery, '?') == 1)
    {
      if |parameters| == 0 {
        return Failure(IllegalArgument(InClauseMessage));
      }
      var placeholders := Placeholders(|parameters|);
      var modifiedQuery := ReplaceAll(baseQuery, '?', placeholders);
      ExpandedPlaceholderCount(baseQuery, |parameters|);
      var self := Append(modifiedQuery, parameters);
      r := Success(self);
    }

    /** The built text carries one `?` per parameter when every fragment did. */
    lemma StatementPlaceholders()
      requires Valid() && PlaceholdersMatch()
      ensures Count(Statement(), '?') == |params|
    {
      JoinedCount(queryBuilder.fragments, paramCounts, '?');
      TrimKeepsCount(Joined(queryBuilder.fragments), '?');
    }

    /** `setParams`: `setObject(i + 1, params.get(i))` for every i. */
    method SetParams() returns (bindings: Bindings)
      ensures BindsPositionally(bindings, params)
    {
      bindings := map[];
      for i := 0 to |params|
        invariant BindsPositionally(bindings, params[..i])
      {
        bindings := bindings[i + 1 := params[i]];
      }
      assert params[..|params|] == params;
    }

    /** `parseResultSetToMap`: fills the map column by column. */
    method ParseResultSetToMap(row: Row) returns (m: RowMap)
      ensures m == RowToMap(row)
    {
      m := [];
      for i := 0 to |row|
        invariant m == RowToMap(row[..i])
      {
        var columnLabel := row[i].columnLabel;
        var value := Decode(row[i]);
        assert row[..i + 1][..i] == row[..i];
        m := Put(m, columnLabel, value);
      }
      assert row[..|row|] == row;
    }

    /**
     * `parseResultSet`: no row is an error for every class token; `List`
     * decodes every row in order, `Map` the first row, and the four scalar
     * tokens read column 1 of the first row.
     */
    method ParseResultSet(rs: ResultRows, cls: JavaClass) returns (r: Result<RunValue, Error>)
      ensures r == Parse(rs, cls)
      ensures |rs| == 0 ==> r == Failure(NoSuchElement(Some(NoDataMessage)))
      ensures |rs| > 0 && cls == ListClass ==>
        && r.Success? && r.value.RowsResult? && |r.value.rows| == |rs|
        && forall i :: 0 <= i < |rs| ==> r.value.rows[i] == RowToMap(rs[i])
      ensures |rs| > 0 && cls == MapClass ==> r == Success(RowResult(RowToMap(rs[0])))
      ensures |rs| > 0 && cls in {StringClass, LongClass, BooleanClass} ==> r == Success(ColumnOne(cls, rs[0][0].value))
      ensures |rs| > 0 && cls == LocalDateTimeClass ==>
        r == if rs[0][0].value == Null then Failure(NullPointer) else Success(ColumnOne(cls, rs[0][0].value))
      ensures |rs| > 0 && cls.Other? ==> r == Failure(IllegalArgument(UnsupportedPrefix + cls.simpleName))
    {
      if |rs| == 0 {
        return Failure(NoSuchElement(Some(NoDataMessage)));
      }
      var first := rs[0][0].value;
      match cls
      case StringClass =>
        r := Success(ColumnOne(cls, first));
      case ListClass =>
        // do { rows.add(...) } while (resultSet.next()): the first row is known to exist
        var rows: seq<RowMap> := [];
        var cursor := 0;
        while cursor < |rs|
          invariant 0 <= cursor <= |rs|
          invariant |rows| == cursor
          invariant forall k :: 0 <= k < cursor ==> rows[k] == RowToMap(rs[k])
        {
          var row := ParseResultSetToMap(rs[cursor]);
          rows := rows + [row];
          cursor := cursor + 1;
        }
        assert rows == seq(|rs|, i requires 0 <= i < |rs| => RowToMap(rs[i]));
        r := Success(RowsResult(rows));
      case MapClass =>
        var row := ParseResultSetToMap(rs[0]);
        r := Success(RowResult(row));
      case LocalDateTimeClass =>
        if first == Null {
          r := Failure(NullPointer);
        } else {
          r := Success(ColumnOne(cls, first));
        }
      case LongClass =>
        r := Success(ColumnOne(cls, first));
      case BooleanClass =>
        r := Success(ColumnOne(cls, first));
      case Other(name) =>
        r := Failure(IllegalArgument(UnsupportedPrefix + name));
    }

    /** `run(cls)`: build, bind, and take the INSERT, SELECT or update path. */
    method Run(cls: JavaClass) returns (r: Result<RunValue, Error>)
      requires Valid()
      ensures r == Execute(Statement(), Positional(params), cls, connection)
    {
      var sql := queryBuilder.Build();
      var bindings := SetParams();
      PositionalIsUnique(bindings, params);
      match Classify(sql) {
        case InsertKind =>
          match connection.executeUpdate(sql, bindings) {
            case Failure(message) =>
              r := Failure(RuntimeFailure(RunFailurePrefix + message));
            case Success(report) =>
              if |report.generatedKeys| > 0 && cls == LongClass {
                r := Success(Generated(report.generatedKeys[0]));
              } else {
                r := Success(UpdateCount(report.updateCount));
              }
          }
        case SelectKind =>
          match connection.executeQuery(sql, bindings) {
            case Failure(message) =>
              r := Failure(RuntimeFailure(RunFailurePrefix + message));
            case Success(rs) =>
              r := ParseResultSet(rs, cls);
          }
        case UpdateKind =>
          match connection.executeUpdate(sql, bindings) {
            case Failure(message) =>
              r := Failure(RuntimeFailure(RunFailurePrefix + message));
            case Success(report) =>
              r := Success(UpdateCount(report.updateCount));
          }
      }
    }

    method Insert() returns (r: Result<RunValue, Error>)
      requires Valid()
      ensures r == Outcome(LongClass)
    {
      var outcome := Run(LongClass);
      r := Cast(LongClass, outcome);
    }

    method Update() returns (r: Result<RunValue, Error>)
      requires Valid()
      ensures r == Outcome(IntegerClass)
    {
      var outcome := Run(IntegerClass);
      r := Cast(IntegerClass, outcome);
    }

    method Delete() returns (r: Result<RunValue, Error>)
      requires Valid()
      ensures r == Outcome(IntegerClass)
    {
      var outcome := Run(IntegerClass);
      r := Cast(IntegerClass, outcome);
    }

    method SelectRow() returns (r: Result<RunValue, Error>)
      requires Valid()
      ensures r == Outcome(MapClass)
      ensures r.Success? ==> r.value.RowResult?
    {
      var outcome := Run(MapClass);
      r := Cast(MapClass, outcome);
    }

    method SelectRows() returns (r: Result<RunValue, Error>)
      requires Valid()
      ensures r == Outcome(ListClass)
      ensures r.Success? ==> r.value.RowsResult?
    {
      var outcome := Run(ListClass);
      r := Cast(ListClass, outcome);
    }

    /** `selectRow(Class)`: the row map handed to the object mapper. */
    method SelectRowAs<T>(mapper: RowMap -> T) returns (r: Result<T, Error>)
      requires Valid()
      ensures Outcome(MapClass).Failure? ==> r == Failure(Outcome(MapClass).error)
      ensures Outcome(MapClass).Success? ==> r == Success(mapper(Outcome(MapClass).value.row))
    {
      var row := SelectRow();
      if row.Failure? {
        r := Failure(row.error);
      } else {
        r := Success(mapper(row.value.row));
      }
    }

    /** `selectRows(Class)`: every row map handed to the object mapper, in row order. */
    method SelectRowsAs<T>(mapper: RowMap -> T) returns (r: Result<seq<T>, Error>)
      requires Valid()
      ensures Outcome(ListClass).Failure? ==> r == Failure(Outcome(ListClass).error)
      ensures Outcome(ListClass).Success? ==>
        && r.Success?
        && |r.value| == |Outcome(ListClass).value.rows|
        && forall i :: 0 <= i < |r.value| ==> r.value[i] == mapper(Outcome(ListClass).value.rows[i])
    {
      var rows := SelectRows();
      if rows.Failure? {
        r := Failure(rows.error);
      } else {
        var maps := rows.value.rows;
        r := Success(seq(|maps|, i requires 0 <= i < |maps| => mapper(maps[i])));
      }
    }

    method SelectDatetime() returns (r: Result<RunValue, Error>)
      requires Valid()
      ensures r == Outcome(LocalDateTimeClass)
    {
      var outcome := Run(LocalDateTimeClass);
      r := Cast(LocalDateTimeClass, outcome);
    }

    method SelectLong() returns (r: Result<RunValue, Error>)
      requires Valid()
      ensures r == Outcome(LongClass)
    {
      var outcome := Run(LongClass);
      r := Cast(LongClass, outcome);
    }

    /** `selectLongs`: the first value of every row, in row order. */
    method SelectLongs() returns (r: Result<seq<Field>, Error>)
      requires Valid()
      ensures Outcome(ListClass).Failure? ==> r == Failure(Outcome(ListClass).error)
      ensures Outcome(ListClass).Success? ==> r == FirstValues(Outcome(ListClass).value.rows)
    {
      var rows := SelectRows();
      if rows.Failure? {
        r := Failure(rows.error);
      } else {
        r := FirstValues(rows.value.rows);
      }
    }

    method SelectString() returns (r: Result<RunValue, Error>)
      requires Valid()
      ensures r == Outcome(StringClass)
    {
      var outcome := Run(StringClass);
      r := Cast(StringClass, outcome);
    }

    method SelectBoolean() returns (r: Result<RunValue, Error>)
      requires Valid()
      ensures r == Outcome(BooleanClass)
    {
      var outcome := Run(BooleanClass);
      r := Cast(BooleanClass, outcome);
    }
  }
}
