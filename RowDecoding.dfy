/**
 * Decoding one result-set row into an insertion-ordered map from column
 * label to value, as `Sql.parseResultSetToMap` does with a `LinkedHashMap`.
 */
module RowDecoding {
  import opened Jdbc

  /**
   * The object stored for one column. The driver's conversions are not
   * interpreted: each constructor records which getter read which raw value.
   */
  datatype Field =
    | NullField                      // Java null
    | LongField(raw: JavaObject)     // getLong
    | DateTimeField(raw: JavaObject) // getTimestamp(..).toLocalDateTime()
    | BooleanField(raw: JavaObject)  // getBoolean
    | ObjectField(raw: JavaObject)   // getObject

  /** The per-column switch on the column's `java.sql.Types` code. */
  function Decode(cell: Cell): (f: Field)
    ensures f.NullField? <==> cell.columnType == TIMESTAMP && cell.value == Null
    ensures f.LongField? <==> cell.columnType == BIGINT
    ensures !f.NullField? ==> f.raw == cell.value
  {
    if cell.columnType == BIGINT then LongField(cell.value)
    else if cell.columnType == TIMESTAMP then
      (if cell.value == Null then NullField else DateTimeField(cell.value))
    else if cell.columnType == BOOLEAN then BooleanField(cell.value)
    else ObjectField(cell.value)
  }

  datatype Entry = Entry(key: string, value: Field)

  /** A `LinkedHashMap<String, Object>`: entries in insertion order. */
  type RowMap = seq<Entry>

  function Keys(m: RowMap): seq<string>
  {
    seq(|m|, i requires 0 <= i < |m| => m[i].key)
  }

  predicate Distinct(xs: seq<string>)
  {
    forall i, j :: 0 <= i < j < |xs| ==> xs[i] != xs[j]
  }

  /** The position of the first entry with key `k`. */
  function IndexOf(m: RowMap, k: string): (r: Option<nat>)
    ensures r.Some? ==> r.value < |m| && m[r.value].key == k
    ensures r.Some? ==> forall j :: 0 <= j < r.value ==> m[j].key != k
    ensures r.None? ==> forall j :: 0 <= j < |m| ==> m[j].key != k
  {
    if m == [] then None
    else if m[0].key == k then Some(0)
    else
      match IndexOf(m[1..], k)
      case Some(i) => Some(i + 1)
      case None => None
  }

  /** The first entry with key `k` is the unique such one that has no earlier match. */
  lemma IndexOfIs(m: RowMap, k: string, i: nat)
    requires i < |m| && m[i].key == k
    requires forall j :: 0 <= j < i ==> m[j].key != k
    ensures IndexOf(m, k) == Some(i)
  {
  }

  lemma InKeys(m: RowMap, k: string)
    ensures k in Keys(m) <==> IndexOf(m, k).Some?
  {
    if IndexOf(m, k).Some? {
      assert Keys(m)[IndexOf(m, k).value] == k;
    }
  }

  /** `map.get(k)`. */
  function Get(m: RowMap, k: string): Option<Field>
  {
    match IndexOf(m, k)
    case Some(i) => Some(m[i].value)
    case None => None
  }

  /** `map.put(k, v)`: an existing key keeps its place and takes the new value; a new key goes last. */
  function Put(m: RowMap, k: string, v: Field): RowMap
  {
    match IndexOf(m, k)
    case Some(i) => m[i := Entry(k, v)]
    case None => m + [Entry(k, v)]
  }

  lemma PutKeys(m: RowMap, k: string, v: Field)
    ensures Keys(Put(m, k, v)) == if k in Keys(m) then Keys(m) else Keys(m) + [k]
  {
    InKeys(m, k);
  }

  lemma PutGet(m: RowMap, k: string, v: Field)
    ensures Get(Put(m, k, v), k) == Some(v)
  {
    match IndexOf(m, k)
    case Some(i) =>
      IndexOfIs(Put(m, k, v), k, i);
    case None =>
      IndexOfIs(Put(m, k, v), k, |m|);
  }

  lemma PutGetOther(m: RowMap, k: string, v: Field, other: string)
    requires other != k
    ensures Get(Put(m, k, v), other) == Get(m, other)
  {
    var m' := Put(m, k, v);
    assert forall j :: 0 <= j < |m| ==> m'[j].key == m[j].key;
    match IndexOf(m, other)
    case Some(i) =>
      IndexOfIs(m', other, i);
    case None =>
      assert forall j :: 0 <= j < |m'| ==> m'[j].key != other;
  }

  /** The column labels of a row, in column order. */
  function Labels(row: Row): seq<string>
  {
    seq(|row|, i requires 0 <= i < |row| => row[i].columnLabel)
  }

  /** The first occurrence of every element, in order of first occurrence. */
  function Dedup(xs: seq<string>): seq<string>
  {
    if xs == [] then []
    else
      var prefix := Dedup(xs[..|xs| - 1]);
      if xs[|xs| - 1] in prefix then prefix else prefix + [xs[|xs| - 1]]
  }

  lemma {:induction false} DedupProperties(xs: seq<string>)
    ensures Distinct(Dedup(xs))
    ensures |Dedup(xs)| <= |xs|
    ensures forall x :: x in Dedup(xs) <==> x in xs
    ensures Distinct(xs) ==> Dedup(xs) == xs
  {
    if xs != [] {
      var init := xs[..|xs| - 1];
      DedupProperties(init);
      assert xs == init + [xs[|xs| - 1]];
      if Distinct(xs) {
        assert Distinct(init);
        assert xs[|xs| - 1] !in init;
      }
    }
  }

  /**
   * The map `parseResultSetToMap` builds: `put(label, decoded value)` for
   * columns 1 to n, in that order.
   */
  function RowToMap(row: Row): RowMap
  {
    if row == [] then []
    else
      var last := row[|row| - 1];
      Put(RowToMap(row[..|row| - 1]), last.columnLabel, Decode(last))
  }

  lemma LabelsOfInit(row: Row)
    requires row != []
    ensures Labels(row[..|row| - 1]) == Labels(row)[..|row| - 1]
  {
  }

  /** The keys are the column labels in column order, each once, at its first column. */
  lemma {:induction false} RowMapKeys(row: Row)
    ensures Keys(RowToMap(row)) == Dedup(Labels(row))
  {
    if row != [] {
      var init := row[..|row| - 1];
      var last := row[|row| - 1];
      RowMapKeys(init);
      LabelsOfInit(row);
      PutKeys(RowToMap(init), last.columnLabel, Decode(last));
    }
  }

  /**
   * The map has at most one entry per column and holds each label of the
   * row; when the labels are distinct, entry i is column i + 1's label with
   * its decoded value.
   */
  lemma RowMapShape(row: Row)
    ensures |RowToMap(row)| <= |row|
    ensures Distinct(Keys(RowToMap(row)))
    ensures forall k :: k in Keys(RowToMap(row)) <==> k in Labels(row)
    ensures Distinct(Labels(row)) ==>
      && |RowToMap(row)| == |row|
      && forall i :: 0 <= i < |row| ==> RowToMap(row)[i] == Entry(row[i].columnLabel, Decode(row[i]))
  {
    RowMapKeys(row);
    DedupProperties(Labels(row));
    assert |RowToMap(row)| == |Keys(RowToMap(row))|;
    if Distinct(Labels(row)) {
      RowMapExact(row);
    }
  }

  /** With distinct labels every column gets its own entry, in column order. */
  lemma {:induction false} RowMapExact(row: Row)
    requires Distinct(Labels(row))
    ensures |RowToMap(row)| == |row|
    ensures forall i :: 0 <= i < |row| ==> RowToMap(row)[i] == Entry(row[i].columnLabel, Decode(row[i]))
  {
    if row != [] {
      var init := row[..|row| - 1];
      var last := row[|row| - 1];
      LabelsOfInit(row);
      assert Distinct(Labels(init));
      RowMapExact(init);
      RowMapKeys(init);
      DedupProperties(Labels(init));
      forall j | 0 <= j < |init|
        ensures Labels(init)[j] != last.columnLabel
      {
        assert Labels(row)[j] != Labels(row)[|row| - 1];
      }
      assert last.columnLabel !in Keys(RowToMap(init));
      InKeys(RowToMap(init), last.columnLabel);
      assert RowToMap(row) == RowToMap(init) + [Entry(last.columnLabel, Decode(last))];
    }
  }

  /** Later columns overwrite earlier ones: a label maps to the decoded value of its last column. */
  lemma {:induction false} RowMapLookup(row: Row, j: nat)
    requires j < |row|
    requires forall i :: j < i < |row| ==> row[i].columnLabel != row[j].columnLabel
    ensures Get(RowToMap(row), row[j].columnLabel) == Some(Decode(row[j]))
  {
    var init := row[..|row| - 1];
    var last := row[|row| - 1];
    if j == |row| - 1 {
      PutGet(RowToMap(init), last.columnLabel, Decode(last));
    } else {
      RowMapLookup(init, j);
      PutGetOther(RowToMap(init), last.columnLabel, Decode(last), row[j].columnLabel);
    }
  }

  /** A label of no column has no entry. */
  lemma RowMapAbsent(row: Row, k: string)
    requires k !in Labels(row)
    ensures Get(RowToMap(row), k) == None
  {
    RowMapShape(row);
    InKeys(RowToMap(row), k);
  }

  /** A null TIMESTAMP column decodes to null, not to a date-time. */
  lemma NullTimestampDecodesToNull(row: Row, j: nat)
    requires j < |row| && row[j].columnType == TIMESTAMP && row[j].value == Null
    requires forall i :: j < i < |row| ==> row[i].columnLabel != row[j].columnLabel
    ensures Get(RowToMap(row), row[j].columnLabel) == Some(NullField)
  {
    RowMapLookup(row, j);
  }
}
