/** The loops both package trees use to read a cursor: the column metadata of a query,
    one row's values, the first row, and every remaining row. They are identical in the
    two trees. Column numbers are 1-based, as the driver's. */
module Cursors {
  import opened Outcomes
  import opened Values
  import opened Jdbc

  /** The ResultMetadata entity: column names and column labels, index-aligned. */
  datatype ResultMetadata = ResultMetadata(names: seq<string>, labels: seq<string>)

  /** The ResultSet entity `query` returns: the metadata, the open cursor, and the ad hoc
      statement behind it when the entity owns one. */
  datatype ResultSetHandle = ResultSetHandle(metadata: ResultMetadata, resultSet: ResultSet, statement: Option<Statement>)

  /** The metadata of a table: entry k of each list describes column k + 1. */
  function MetadataOf(t: Table): ResultMetadata {
    ResultMetadata(t.names, t.labels)
  }

  /** The first refusal met by the row loops over a cursor whose remaining rows are
      `remaining`: `next` is always called; the metadata and the first cell only once a
      row was reached. Refusals do not depend on the position, so one bad call in the
      first row is the only way the loops fail. */
  function RowsFault(closed: bool, faults: Faults, remaining: seq<Row>, columns: nat): Option<Fault> {
    CursorRefusal(closed, faults, NextCall).OrElse(
      if remaining == [] then None
      else CursorRefusal(closed, faults, MetadataCall).OrElse(
        if columns > 0 then CursorRefusal(closed, faults, GetObjectCall) else None))
  }

  function RowsRefusal(rs: ResultSet): Option<Fault>
    reads rs
    requires rs.Valid()
  {
    RowsFault(rs.closed, rs.faults, rs.Remaining(), rs.ColumnCount())
  }

  /** The metadata loop of `query`: for i from 1 while i <= getColumnCount(), the name and
      the label of column i. Entry k of each list describes column k + 1. */
  method ReadMetadata(rs: ResultSet) returns (o: Outcome<ResultMetadata>)
    ensures rs.Refusal(MetadataCall).Some? ==> o == Thrown(rs.Refusal(MetadataCall).value)
    ensures rs.Refusal(MetadataCall).None? ==> o.Ok?
    ensures o.Ok? ==> |o.value.names| == |o.value.labels| == rs.ColumnCount()
    ensures o.Ok? ==> o.value == MetadataOf(rs.table)
  {
    var names: seq<string>, labels: seq<string> := [], [];
    var i := 1;
    while true
      invariant 1 <= i <= rs.ColumnCount() + 1
      invariant names == rs.table.names[..i - 1] && labels == rs.table.labels[..i - 1]
      invariant i > 1 ==> rs.Refusal(MetadataCall).None?
      decreases rs.ColumnCount() + 1 - i
    {
      var count :- rs.GetColumnCount();
      if i > count {
        break;
      }
      // count succeeded and i is in range, so neither call can throw here
      var columnName := rs.GetColumnName(i);
      var columnLabel := rs.GetColumnLabel(i);
      names, labels := names + [columnName.value], labels + [columnLabel.value];
      i := i + 1;
    }
    return Ok(ResultMetadata(names, labels));
  }

  /** The row loop: getObject(i) for i in 1..getColumnCount(), in column order. */
  method ReadRow(rs: ResultSet) returns (o: Outcome<Row>)
    ensures o.Failure() == rs.Refusal(MetadataCall).OrElse(if rs.ColumnCount() > 0 then rs.ObjectAt(1).Failure() else None)
    ensures o.Ok? ==> |o.value| == rs.ColumnCount()
    ensures o.Ok? && rs.OnRow() ==> o.value == rs.CurrentRow()
  {
    var count :- rs.GetColumnCount();
    var row: Row := [];
    var i := 1;
    while i <= count
      invariant count == rs.ColumnCount() && 1 <= i <= count + 1
      invariant |row| == i - 1
      invariant i > 1 ==> rs.Refusal(GetObjectCall).None? && rs.OnRow()
      invariant rs.OnRow() ==> row == rs.CurrentRow()[..i - 1]
    {
      var v :- rs.GetObject(i);
      row := row + [v];
      i := i + 1;
    }
    assert rs.OnRow() ==> |rs.CurrentRow()| == count && rs.CurrentRow()[..count] == rs.CurrentRow();
    return Ok(row);
  }

  /** One step of the row loops: advance once and, if a row is there, read it. The
      body of `fetchOne` is one step; `fetchAll` repeats it until no row is left. */
  method NextRow(rs: ResultSet) returns (o: Outcome<Option<Row>>)
    requires rs.Valid()
    modifies rs
    ensures rs.Valid() && rs.closed == old(rs.closed)
    ensures o.Failure() == old(RowsRefusal(rs))
    ensures o.Ok? ==> o.value == if old(rs.Remaining()) == [] then None else Some(old(rs.Remaining())[0])
    ensures o.Ok? ==> rs.Remaining() == if old(rs.Remaining()) == [] then [] else old(rs.Remaining())[1..]
  {
    var more :- rs.Next();
    if !more {
      return Ok(None);
    }
    assert rs.OnRow();
    var row :- ReadRow(rs);
    return Ok(Some(row));
  }

  /** The body of `fetchAll`: advance until exhausted, reading each row in cursor order. */
  method AllRows(rs: ResultSet) returns (o: Outcome<seq<Row>>)
    requires rs.Valid()
    modifies rs
    ensures rs.Valid() && rs.closed == old(rs.closed)
    ensures o.Failure() == old(RowsRefusal(rs))
    ensures o.Ok? ==> o.value == old(rs.Remaining())
  {
    ghost var all := rs.Remaining();
    var rows: seq<Row> := [];
    while true
      invariant rs.Valid() && rs.closed == old(rs.closed)
      invariant rows + rs.Remaining() == all
      invariant rows != [] ==> RowsFault(rs.closed, rs.faults, all, rs.ColumnCount()).None?
      decreases |rs.Remaining()|
    {
      ghost var before := rs.Remaining();
      RowsFaultOnlyWhetherEmpty(rs.closed, rs.faults, all, before, rs.ColumnCount());
      var step := NextRow(rs);
      if step.Thrown? {
        return Thrown(step.fault);
      }
      if step.value.None? {
        break;
      }
      AppendFirst(rows, before);
      rows := rows + [step.value.value];
    }
    return Ok(rows);
  }

  /** The remaining rows matter to RowsFault only through whether there are any: a
      cursor with rows left refuses as it did at the start, and any cursor refuses
      nothing once one with rows left refused nothing. */
  lemma RowsFaultOnlyWhetherEmpty(closed: bool, faults: Faults, all: seq<Row>, remaining: seq<Row>, columns: nat)
    requires all != [] || remaining == []
    ensures RowsFault(closed, faults, all, columns).None? ==> RowsFault(closed, faults, remaining, columns).None?
  {
  }

  lemma AppendFirst(rows: seq<Row>, rest: seq<Row>)
    requires rest != []
    ensures (rows + [rest[0]]) + rest[1..] == rows + rest
  {
    assert rest == [rest[0]] + rest[1..];
  }

  /** try-with-resources: the body's exception wins; otherwise a failing close replaces the
      body's normal result. */
  function WithResource<T>(body: Outcome<T>, close: Outcome<()>): Outcome<T> {
    if body.Thrown? then body else if close.Thrown? then Thrown(close.fault) else body
  }
}
