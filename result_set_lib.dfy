/** ResultSetFunctions of the current package tree: the native methods of the ResultSet
    entity that `query` returns. The setup hook binds the entity's cursor and, when the
    entity owns one, its ad hoc statement. */
module ResultSetLib {
  import opened Outcomes
  import opened Values
  import opened Jdbc
  import opened Cursors
  import opened ColumnAccess

  class ResultSetFunctions {
    var resultSet: ResultSet?
    var statement: Statement?

    constructor ()
      ensures resultSet == null && statement == null
    {
      resultSet, statement := null, null;
    }

    /** The setup hook: the entity's cursor, and its statement when the Optional is present. */
    method SetupResultSet(h: ResultSetHandle)
      modifies this
      ensures resultSet == h.resultSet
      ensures statement == if h.statement.Some? then h.statement.value else null
    {
      resultSet := h.resultSet;
      statement := if h.statement.Some? then h.statement.value else null;
    }

    /** hasNext: advance the cursor; a refused advance answers false. */
    method HasNext() returns (o: Outcome<bool>)
      requires resultSet != null ==> resultSet.Valid()
      modifies resultSet
      ensures resultSet == null ==> o == Thrown(NullPointer)
      ensures resultSet != null ==>
        && resultSet.Valid() && resultSet.closed == old(resultSet.closed)
        && o == Ok(resultSet.Refusal(NextCall).None? && old(resultSet.pos) < |resultSet.table.rows|)
        && resultSet.pos == if resultSet.Refusal(NextCall).None? && old(resultSet.pos) <= |resultSet.table.rows|
                            then old(resultSet.pos) + 1 else old(resultSet.pos)
    {
      if resultSet == null {
        return Thrown(NullPointer);
      }
      var more := resultSet.Next();
      return Ok(more == Ok(true));
    }

    /** getValue(column): see ValueAt. */
    method GetValue(column: HostValue) returns (o: Outcome<NativeValue>)
      ensures resultSet == null ==> o == if column.Str? || column.Int? then Thrown(NullPointer) else Ok(JNull)
      ensures resultSet != null ==> o == ValueAt(resultSet, column)
      ensures o.Thrown? ==> o.fault.DatabaseException? || o.fault.NullPointer?
    {
      if column.Str? {
        if resultSet == null {
          return Thrown(NullPointer);
        }
        var read := resultSet.GetObjectNamed(column.s);
        return if read.Thrown? then Thrown(Rewrapped(read.fault)) else read;
      } else if column.Int? {
        if resultSet == null {
          return Thrown(NullPointer);
        }
        var read := resultSet.GetObject(DriverColumn(column.i));
        return if read.Thrown? then Thrown(Rewrapped(read.fault)) else read;
      }
      return Ok(JNull);
    }

    /** The first refusal of close: the cursor, then the statement when there is one. */
    function CloseFault(): Option<Fault>
      reads this, resultSet, statement
    {
      if resultSet == null then Some(NullPointer)
      else resultSet.Refusal(CloseCursorCall).OrElse(
        if statement == null then None else statement.Refusal(CloseStatementCall))
    }

    /** close: the cursor, then the statement only when the entity owns one; a driver
        failure is re-raised as a DatabaseException, and a refused cursor close leaves the
        statement as it was. */
    method Close() returns (o: Outcome<()>)
      modifies resultSet, statement
      ensures o.Failure().None? <==> old(CloseFault()).None?
      ensures o.Thrown? ==> o.fault == Rewrapped(old(CloseFault()).value)
      ensures resultSet != null ==>
        && resultSet.pos == old(resultSet.pos)
        && resultSet.closed == (old(resultSet.closed) || CloseCursorCall !in resultSet.faults.cursor)
      ensures statement != null ==>
        && statement.fetchSize == old(statement.fetchSize)
        && statement.closed ==
             if resultSet == null || CloseCursorCall in resultSet.faults.cursor then old(statement.closed)
             else old(statement.closed) || CloseStatementCall !in statement.faults.statement
    {
      if resultSet == null {
        return Thrown(NullPointer);
      }
      var c := resultSet.Close();
      if c.Thrown? {
        return Thrown(Rewrapped(c.fault));
      }
      if statement != null {
        var s := statement.Close();
        if s.Thrown? {
          return Thrown(Rewrapped(s.fault));
        }
      }
      return Ok(());
    }
  }
}
