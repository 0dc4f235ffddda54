/** ConnectionFunctions of the legacy package tree. Every input is SQL text run on a fresh
    ad hoc statement that is never closed; there is no prepareStatement. `query` lets every
    exception escape, and `fetchOne` and `fetchAll` close only their cursor. The fault
    functions below name each call's first refusal, as in the current tree. */
module LegacyConnectionLib {
  import opened Outcomes
  import opened Values
  import opened Results
  import opened Jdbc
  import opened Lifecycle
  import opened Cursors

  /** createStatement, then setFetchSize(1) when `sized`, then executeQuery. */
  function OpenFault(c: Connection?, sized: bool): Option<Fault>
    reads c
  {
    if c == null then Some(NullPointer)
    else
      ConnectionRefusal(c.State(), CreateStatementCall)
        .OrElse(if sized then StatementRefusal(false, c.faults, SetFetchSizeCall) else None)
        .OrElse(StatementRefusal(false, c.faults, ExecuteQueryCall))
  }

  /** verifyConnection, then OpenFault. */
  function CheckedOpenFault(c: Connection?, sized: bool): Option<Fault>
    reads c
  {
    Verify(Snapshot(c)).Failure().OrElse(OpenFault(c, sized))
  }

  function QueryFault(c: Connection?): Option<Fault>
    reads c
  {
    var f := CheckedOpenFault(c, false);
    if f.Some? then f else CursorRefusal(false, c.faults, MetadataCall)
  }

  /** The row loop over a fresh cursor for `sql`, then the cursor's close. */
  function ReadFault(c: Connection, sql: string): Option<Fault>
    reads c
  {
    var t := c.db.query(sql, map[]);
    RowsFault(false, c.faults, t.rows, |t.names|).OrElse(CursorRefusal(false, c.faults, CloseCursorCall))
  }

  function FetchOneFault(c: Connection?, sql: string): Option<Fault>
    reads c
  {
    var f := CheckedOpenFault(c, true);
    if f.Some? then f else ReadFault(c, sql)
  }

  /** fetchAll does not verify the connection. */
  function FetchAllFault(c: Connection?, sql: string): Option<Fault>
    reads c
  {
    var f := OpenFault(c, true);
    if f.Some? then f else ReadFault(c, sql)
  }

  /** verifyConnection, createStatement, then the execute call `call`. */
  function DirectFault(c: Connection?, call: StatementCall): Option<Fault>
    reads c
  {
    var f := Verify(Snapshot(c)).Failure();
    if f.Some? then f
    else ConnectionRefusal(c.State(), CreateStatementCall).OrElse(StatementRefusal(false, c.faults, call))
  }

  class ConnectionFunctions {
    var connection: Connection?

    constructor ()
      ensures connection == null
    {
      connection := null;
    }

    method SetupConnection(c: Connection?)
      modifies this
      ensures connection == c
    {
      connection := c;
    }

    method IsConnected() returns (b: bool)
      ensures b == Lifecycle.IsConnected(Snapshot(connection))
    {
      if connection == null {
        return false;
      }
      var closed := connection.IsClosed();
      return closed == Ok(false);
    }

    method VerifyConnection() returns (o: Outcome<()>)
      ensures o == Verify(Snapshot(connection))
    {
      if connection == null {
        return Thrown(DatabaseException(NotInitializedMessage));
      }
      var closed :- connection.IsClosed();
      if closed {
        return Thrown(DatabaseException(IsClosedMessage));
      }
      return Ok(());
    }

    /** The ad hoc statement of a raw query, with fetch size 1 when `sized`. */
    method OpenQuery(sql: string, sized: bool) returns (o: Outcome<ResultSet>, ghost adhoc: Statement?)
      ensures o.Failure() == OpenFault(connection, sized)
      ensures o.Ok? ==>
        && connection != null && fresh(o.value) && o.value.Valid()
        && o.value.Opened(connection.db.query(sql, map[]), connection.faults)
      ensures adhoc != null <==> connection != null && ConnectionRefusal(connection.State(), CreateStatementCall).None?
      ensures adhoc != null ==> fresh(adhoc) && !adhoc.closed
    {
      adhoc := null;
      if connection == null {
        return Thrown(NullPointer), null;
      }
      var created := connection.CreateStatement();
      if created.Thrown? {
        return Thrown(created.fault), null;
      }
      var st := created.value;
      adhoc := st;
      if sized {
        var resized := st.SetFetchSize(1);
        if resized.Thrown? {
          return Thrown(resized.fault), adhoc;
        }
      }
      o := st.ExecuteQuery(sql);
      if o.Ok? {
        assert o.value.Opened(connection.db.query(sql, map[]), connection.faults);
      }
    }

    /** query: the open cursor and its metadata. Nothing is caught and nothing is closed:
        the entity holds no statement, so the ad hoc one stays open. */
    method Query(sql: string) returns (o: Outcome<Result<ResultSetHandle>>, ghost adhoc: Statement?)
      ensures old(QueryFault(connection)).Some? ==> o == Thrown(old(QueryFault(connection)).value)
      ensures old(QueryFault(connection)).None? ==>
        && connection != null && o.Ok? && o.value.Success?
        && var h := o.value.value;
          var t := connection.db.query(sql, map[]);
          h.metadata == MetadataOf(t) && h.statement.None?
          && fresh(h.resultSet) && h.resultSet.Opened(t, connection.faults)
      ensures adhoc != null <==>
        && Verify(Snapshot(connection)).Ok?
        && ConnectionRefusal(connection.State(), CreateStatementCall).None?
      ensures adhoc != null ==> fresh(adhoc) && !adhoc.closed
    {
      adhoc := null;
      var v := VerifyConnection();
      if v.Thrown? {
        return Thrown(v.fault), null;
      }
      var started;
      started, adhoc := OpenQuery(sql, false);
      if started.Thrown? {
        return Thrown(started.fault), adhoc;
      }
      var rs := started.value;
      var metadata := ReadMetadata(rs);
      if metadata.Thrown? {
        return Thrown(metadata.fault), adhoc;
      }
      return Ok(Success(ResultSetHandle(metadata.value, rs, None))), adhoc;
    }

    /** fetchOne: the first row, read inside a try-with-resources on the cursor alone. */
    method FetchOne(sql: string) returns (o: Outcome<Result<Row>>, ghost adhoc: Statement?, ghost cursor: ResultSet?)
      ensures old(FetchOneFault(connection, sql)).Some? ==> o == Caught(old(FetchOneFault(connection, sql)).value)
      ensures old(FetchOneFault(connection, sql)).None? ==>
        && connection != null
        && o == Ok(var rows := connection.db.query(sql, map[]).rows; if rows == [] then NoRows() else Success(rows[0]))
      ensures adhoc != null <==>
        && Verify(Snapshot(connection)).Ok?
        && ConnectionRefusal(connection.State(), CreateStatementCall).None?
      ensures adhoc != null ==> fresh(adhoc) && !adhoc.closed
      ensures cursor != null <==> CheckedOpenFault(connection, true).None?
      ensures cursor != null ==> fresh(cursor) && (cursor.closed <==> CloseCursorCall !in cursor.faults.cursor)
    {
      adhoc, cursor := null, null;
      var v := VerifyConnection();
      if v.Thrown? {
        return Caught(v.fault), null, null;
      }
      var started;
      started, adhoc := OpenQuery(sql, true);
      if started.Thrown? {
        return Caught(started.fault), adhoc, null;
      }
      var rs := started.value;
      cursor := rs;
      assert rs.Remaining() == connection.db.query(sql, map[]).rows;
      var first := NextRow(rs);
      var closing := rs.Close();
      var body := WithResource(first, closing);
      if body.Thrown? {
        return Caught(body.fault), adhoc, cursor;
      }
      o := Ok(if body.value.None? then NoRows() else Success(body.value.value));
    }

    /** fetchAll: every row, inside a try-with-resources on the cursor alone. It does not
        verify the connection first. */
    method FetchAll(sql: string) returns (o: Outcome<Result<seq<Row>>>, ghost adhoc: Statement?, ghost cursor: ResultSet?)
      ensures old(FetchAllFault(connection, sql)).Some? ==> o == Caught(old(FetchAllFault(connection, sql)).value)
      ensures old(FetchAllFault(connection, sql)).None? ==>
        connection != null && o == Ok(Success(connection.db.query(sql, map[]).rows))
      ensures adhoc != null <==> connection != null && ConnectionRefusal(connection.State(), CreateStatementCall).None?
      ensures adhoc != null ==> fresh(adhoc) && !adhoc.closed
      ensures cursor != null <==> OpenFault(connection, true).None?
      ensures cursor != null ==> fresh(cursor) && (cursor.closed <==> CloseCursorCall !in cursor.faults.cursor)
    {
      cursor := null;
      var started;
      started, adhoc := OpenQuery(sql, true);
      if started.Thrown? {
        return Caught(started.fault), adhoc, null;
      }
      var rs := started.value;
      cursor := rs;
      assert rs.Remaining() == connection.db.query(sql, map[]).rows;
      var rows := AllRows(rs);
      var closing := rs.Close();
      var body := WithResource(rows, closing);
      if body.Thrown? {
        return Caught(body.fault), adhoc, cursor;
      }
      o := Ok(Success(body.value));
    }

    /** update: the update count of a fresh ad hoc statement, left open. */
    method Update(sql: string) returns (o: Outcome<Result<nat>>, ghost adhoc: Statement?)
      ensures DirectFault(connection, ExecuteUpdateCall).Some? ==> o == Caught(DirectFault(connection, ExecuteUpdateCall).value)
      ensures DirectFault(connection, ExecuteUpdateCall).None? ==>
        connection != null && o == Ok(Success(connection.db.update(sql, map[])))
      ensures adhoc != null <==>
        && Verify(Snapshot(connection)).Ok?
        && ConnectionRefusal(connection.State(), CreateStatementCall).None?
      ensures adhoc != null ==> fresh(adhoc) && !adhoc.closed
    {
      adhoc := null;
      var v := VerifyConnection();
      if v.Thrown? {
        return Caught(v.fault), null;
      }
      var created := connection.CreateStatement();
      if created.Thrown? {
        return Caught(created.fault), null;
      }
      adhoc := created.value;
      var count := created.value.ExecuteUpdate(sql);
      if count.Thrown? {
        return Caught(count.fault), adhoc;
      }
      o := Ok(Success(count.value));
    }

    /** execute: whether a fresh ad hoc statement, left open, produced a result set. */
    method Execute(sql: string) returns (o: Outcome<Result<bool>>, ghost adhoc: Statement?)
      ensures DirectFault(connection, ExecuteCall).Some? ==> o == Caught(DirectFault(connection, ExecuteCall).value)
      ensures DirectFault(connection, ExecuteCall).None? ==>
        connection != null && o == Ok(Success(connection.db.execute(sql, map[])))
      ensures adhoc != null <==>
        && Verify(Snapshot(connection)).Ok?
        && ConnectionRefusal(connection.State(), CreateStatementCall).None?
      ensures adhoc != null ==> fresh(adhoc) && !adhoc.closed
    {
      adhoc := null;
      var v := VerifyConnection();
      if v.Thrown? {
        return Caught(v.fault), null;
      }
      var created := connection.CreateStatement();
      if created.Thrown? {
        return Caught(created.fault), null;
      }
      adhoc := created.value;
      var had := created.value.Execute(sql);
      if had.Thrown? {
        return Caught(had.fault), adhoc;
      }
      o := Ok(Success(had.value));
    }

    method BeginTransaction() returns (b: bool)
      modifies connection
      ensures (b, Snapshot(connection)) == Perform(old(Snapshot(connection)), BestEffortOp.BeginTransaction)
    {
      var v := VerifyConnection();
      if v.Thrown? {
        return false;
      }
      var off := connection.SetAutoCommit(false);
      return off.Ok?;
    }

    method Commit() returns (b: bool)
      modifies connection
      ensures (b, Snapshot(connection)) == Perform(old(Snapshot(connection)), BestEffortOp.Commit)
    {
      var v := VerifyConnection();
      if v.Thrown? {
        return false;
      }
      var done := connection.Commit();
      if done.Thrown? {
        return false;
      }
      var on := connection.SetAutoCommit(true);
      return on.Ok?;
    }

    method Rollback() returns (b: bool)
      modifies connection
      ensures (b, Snapshot(connection)) == Perform(old(Snapshot(connection)), BestEffortOp.Rollback)
    {
      var v := VerifyConnection();
      if v.Thrown? {
        return false;
      }
      var done := connection.Rollback();
      if done.Thrown? {
        return false;
      }
      var on := connection.SetAutoCommit(true);
      return on.Ok?;
    }

    method Disconnect() returns (b: bool)
      modifies connection
      ensures (b, Snapshot(connection)) == Perform(old(Snapshot(connection)), BestEffortOp.Disconnect)
    {
      var v := VerifyConnection();
      if v.Thrown? {
        return false;
      }
      var closed := connection.Close();
      return closed.Ok?;
    }
  }
}
