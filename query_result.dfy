/** QueryResult: a result set paired with the statement that produced it when that
    statement was created ad hoc for the query, so that both are closed together. A
    cursor from a caller's prepared statement is paired with no statement (null): the
    caller keeps ownership of it. The pair's two fields are fixed at construction. */
module QueryResults {
  import opened Outcomes
  import opened Jdbc

  class QueryResult {
    const resultSet: ResultSet?
    const statement: Statement?

    constructor (resultSet: ResultSet?, statement: Statement?)
      ensures this.resultSet == resultSet && this.statement == statement
    {
      this.resultSet := resultSet;
      this.statement := statement;
    }

    /** The one-argument constructor: a pairing that owns no statement. */
    constructor OfResultSet(resultSet: ResultSet?)
      ensures this.resultSet == resultSet && this.statement == null
    {
      this.resultSet := resultSet;
      this.statement := null;
    }

    /** What close() yields: the result set's refusal first, then the statement's. */
    function CloseOutcome(): Outcome<()>
      reads resultSet, statement
    {
      if resultSet != null && resultSet.Refusal(CloseCursorCall).Some? then Thrown(resultSet.Refusal(CloseCursorCall).value)
      else if statement != null && statement.Refusal(CloseStatementCall).Some? then Thrown(statement.Refusal(CloseStatementCall).value)
      else Ok(())
    }

    /** Both parts are closed except where the driver refused to close one; the statement
        is only reached once the result set closed. */
    predicate Released()
      reads resultSet, statement
    {
      && (resultSet != null ==> resultSet.closed || CloseCursorCall in resultSet.faults.cursor)
      && (statement != null && (resultSet == null || CloseCursorCall !in resultSet.faults.cursor) ==>
            statement.closed || CloseStatementCall in statement.faults.statement)
    }

    /** close(): the result set if present, then the statement if present. If closing the
        result set throws, the exception propagates and the statement is left as it was. */
    method Close() returns (o: Outcome<()>)
      modifies resultSet, statement
      ensures o == old(CloseOutcome())
      ensures Released()
      ensures o.Ok? ==> (resultSet != null ==> resultSet.closed) && (statement != null ==> statement.closed)
      ensures resultSet != null ==>
        resultSet.closed == (old(resultSet.closed) || CloseCursorCall !in resultSet.faults.cursor)
        && resultSet.pos == old(resultSet.pos)
      ensures statement != null ==> statement.fetchSize == old(statement.fetchSize)
      ensures statement != null ==>
        statement.closed == if resultSet != null && CloseCursorCall in resultSet.faults.cursor then old(statement.closed)
                            else old(statement.closed) || CloseStatementCall !in statement.faults.statement
    {
      if resultSet != null {
        var c := resultSet.Close();
        if c.Thrown? {
          return c;
        }
      }
      if statement != null {
        var c := statement.Close();
        if c.Thrown? {
          return c;
        }
      }
      return Ok(());
    }
  }
}
