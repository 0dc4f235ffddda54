/** ResultSetFunctions of the legacy package tree: the cursor only, with hasNext and
    getValue and no close. */
module LegacyResultSetLib {
  import opened Outcomes
  import opened Values
  import opened Jdbc
  import opened ColumnAccess

  class ResultSetFunctions {
    var resultSet: ResultSet?

    constructor ()
      ensures resultSet == null
    {
      resultSet := null;
    }

    method SetupResultSet(rs: ResultSet?)
      modifies this
      ensures resultSet == rs
    {
      resultSet := rs;
    }

    method HasNext() returns (o: Outcome<bool>)
      requires resultSet != null ==> resultSet.Valid()
      modifies resultSet
      ensures resultSet == null ==> o == Thrown(NullPointer)
      ensures resultSet != null ==>
        && resultSet.Valid() && resultSet.closed == old(resultSet.closed)
        && o == Ok(resultSet.Refusal(NextCall).None? && old(resultSet.pos) < |resultSet.table.rows|)
        && resultSet.pos == if resultSet.Refusal(NextCall).None? && old(resultSet.pos) <= |resultSet.table.rows|
                            then old(resultSet.pos) + 1 else old(resultSet.pos)
    {
      if resultSet == null {
        return Thrown(NullPointer);
      }
      var more := resultSet.Next();
      return Ok(more == Ok(true));
    }

    method GetValue(column: HostValue) returns (o: Outcome<NativeValue>)
      ensures resultSet == null ==> o == if column.Str? || column.Int? then Thrown(NullPointer) else Ok(JNull)
      ensures resultSet != null ==> o == ValueAt(resultSet, column)
      ensures o.Thrown? ==> o.fault.DatabaseException? || o.fault.NullPointer?
    {
      if column.Str? {
        if resultSet == null {
          return Thrown(NullPointer);
        }
        var read := resultSet.GetObjectNamed(column.s);
        return if read.Thrown? then Thrown(Rewrapped(read.fault)) else read;
      } else if column.Int? {
        if resultSet == null {
          return Thrown(NullPointer);
        }
        var read := resultSet.GetObject(DriverColumn(column.i));
        return if read.Thrown? then Thrown(Rewrapped(read.fault)) else read;
      }
      return Ok(JNull);
    }
  }
}
