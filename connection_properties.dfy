/** What the fault functions of the two ConnectionFunctions classes mean for a caller:
    which error a dead connection produces, what escapes, and that a driver refusing
    nothing lets every call through. */
module ConnectionProperties {
  import opened Outcomes
  import opened Values
  import opened Results
  import opened Jdbc
  import opened Lifecycle
  import opened TypeUtility
  import opened Cursors
  import opened ConnectionLib
  import LegacyConnectionLib

  /** A driver that refuses no call. */
  predicate Healthy(f: Faults) {
    f.connection == {} && f.statement == {} && f.cursor == {}
  }

  /** A connection that is set, open, and whose driver refuses nothing. */
  predicate Live(c: Connection?)
    reads c
  {
    c != null && !c.closed && Healthy(c.faults)
  }

  /** A connection never set: every verifying call of the current tree meets the
      DatabaseException of verifyConnection first, which Caught reports as code 99. */
  lemma UninitializedReports99(cf: ConnectionFunctions, q: QueryInput, sql: string, params: seq<HostValue>)
    requires cf.connection == null
    ensures var f := DatabaseException("Connection is not initialized");
      && cf.QueryFault(q) == Some(f) && cf.FetchOneFault(q) == Some(f) && cf.PrepareFault(sql, params) == Some(f)
      && Verify(Snapshot(cf.connection)).Failure().OrElse(cf.DirectFault(q, ExecuteUpdateCall)) == Some(f)
  {
  }

  /** A closed connection whose isClosed answers: the same, with "Connection is closed". */
  lemma ClosedReports99(cf: ConnectionFunctions, q: QueryInput, sql: string, params: seq<HostValue>)
    requires cf.connection != null && cf.connection.closed && IsClosedCall !in cf.connection.faults.connection
    ensures var f := DatabaseException("Connection is closed");
      && cf.QueryFault(q) == Some(f) && cf.FetchOneFault(q) == Some(f) && cf.PrepareFault(sql, params) == Some(f)
      && Verify(Snapshot(cf.connection)).Failure().OrElse(cf.DirectFault(q, ExecuteUpdateCall)) == Some(f)
  {
  }

  /** fetchAll skips verifyConnection: SQL text on a connection never set throws a null
      reference out of the call, and on a closed one the driver's refusal is code 10. */
  lemma FetchAllSkipsVerification(cf: ConnectionFunctions, sql: string)
    ensures cf.connection == null ==> Caught<seq<Row>>(cf.FetchAllFault(Raw(sql)).value) == Thrown(NullPointer)
    ensures cf.connection != null && cf.connection.closed && CreateStatementCall !in cf.connection.faults.connection ==>
      Caught<seq<Row>>(cf.FetchAllFault(Raw(sql)).value) == Ok(Error(10, "SQL Exception: " + ConnectionClosedMessage))
  {
  }

  /** An input that is neither a string nor an entity escapes as
      InvalidStatementTypeException, from every query-family call on a live connection. */
  lemma OtherInputEscapes(cf: ConnectionFunctions, typeName: string)
    requires Lifecycle.IsConnected(Snapshot(cf.connection))
    ensures var f := InvalidStatementType("Expected a string or a PreparedStatement, got " + typeName);
      && cf.QueryFault(Other(typeName)) == Some(f) && cf.FetchOneFault(Other(typeName)) == Some(f)
      && cf.FetchAllFault(Other(typeName)) == Some(f)
      && cf.DirectFault(Other(typeName), ExecuteUpdateCall) == Some(f) && cf.DirectFault(Other(typeName), ExecuteCall) == Some(f)
      && Caught<Row>(f) == Thrown(f)
  {
    VerifyMatchesIsConnected(Snapshot(cf.connection));
  }

  /** A fetchOne that succeeds on a prepared statement puts its fetch size back; one whose
      executeQuery is refused after the size was set leaves it at 1. */
  lemma FetchSizeRestored(cf: ConnectionFunctions, ps: PreparedStatement)
    ensures cf.FetchOneFault(Prepared(ps)).None? ==> cf.FetchSizeAfter(ps, 1) == ps.fetchSize
    ensures ps.Refusal(GetFetchSizeCall).None? && ps.Refusal(SetFetchSizeCall).None? && ps.Refusal(ExecuteQueryCall).Some? ==>
      cf.FetchSizeAfter(ps, 1) == 1
  {
    if cf.FetchOneFault(Prepared(ps)).None? {
      assert cf.OpenFault(Prepared(ps), 1).None?;
    }
  }

  /** With a live connection and a healthy driver, SQL text goes through every
      query-family call: fetchOne answers the first row or NO_ROWS_RETURNED, and fetchAll
      every row. */
  lemma HealthyRawSucceeds(cf: ConnectionFunctions, sql: string)
    requires Live(cf.connection)
    ensures cf.QueryFault(Raw(sql)).None? && cf.FetchOneFault(Raw(sql)).None? && cf.FetchAllFault(Raw(sql)).None?
    ensures cf.DirectFault(Raw(sql), ExecuteUpdateCall).None? && cf.DirectFault(Raw(sql), ExecuteCall).None?
  {
  }

  /** The same for an open prepared statement whose driver refuses nothing. */
  lemma HealthyPreparedSucceeds(cf: ConnectionFunctions, ps: PreparedStatement)
    requires Live(cf.connection) && !ps.closed && Healthy(ps.faults)
    ensures cf.QueryFault(Prepared(ps)).None? && cf.FetchOneFault(Prepared(ps)).None? && cf.FetchAllFault(Prepared(ps)).None?
    ensures cf.DirectFault(Prepared(ps), ExecuteUpdateCall).None? && cf.DirectFault(Prepared(ps), ExecuteCall).None?
  {
  }

  /** prepareStatement checks its parameters before it prepares anything: on a live
      connection, the first rejected parameter escapes as InvalidPreparedStatementType,
      whatever the driver would do. */
  lemma RejectedParameterEscapes(cf: ConnectionFunctions, sql: string, params: seq<HostValue>, i: nat)
    requires Lifecycle.IsConnected(Snapshot(cf.connection))
    requires i < |params| && !params[i].Bindable() && forall j :: 0 <= j < i ==> params[j].Bindable()
    ensures Caught<PreparedStatement>(cf.PrepareFault(sql, params).value)
         == Thrown(InvalidPreparedStatementType("Invalid type for PreparedStatement: " + params[i].typeName))
  {
    VerifyMatchesIsConnected(Snapshot(cf.connection));
    var r := ConvertParams(params);
    assert r.Thrown?;
    var k :| 0 <= k < |params| && FromQilletniToNativeJava(params[k]) == Thrown(r.fault)
      && forall j :: 0 <= j < k ==> params[j].Bindable();
    CoercionRejects(params[k]);
    CoercionRejects(params[i]);
    assert k == i;
  }

  /** On a live connection with a healthy driver, prepareStatement succeeds exactly when
      every parameter converts and there are no more of them than the statement has
      slots; too many bindable parameters give code 10. */
  lemma PrepareOutcome(cf: ConnectionFunctions, sql: string, params: seq<HostValue>)
    requires Live(cf.connection)
    requires forall j :: 0 <= j < |params| ==> params[j].Bindable()
    ensures cf.PrepareFault(sql, params).None? <==> |params| <= cf.connection.db.placeholders(sql)
    ensures |params| > cf.connection.db.placeholders(sql) ==>
      Caught<PreparedStatement>(cf.PrepareFault(sql, params).value) == Ok(Error(10, "SQL Exception: " + ParameterIndexMessage))
  {
  }

  /** On a connection whose ad hoc statements close, the two package trees agree on
      fetchOne over SQL text: the current tree's extra statement close cannot fail. They
      agree on fetchAll too when setFetchSize is not refused, which only the legacy
      fetchAll calls. */
  lemma TreesAgreeOnRawFetches(cf: ConnectionFunctions, sql: string)
    requires cf.connection != null && CloseStatementCall !in cf.connection.faults.statement
    ensures cf.FetchOneFault(Raw(sql)) == LegacyConnectionLib.FetchOneFault(cf.connection, sql)
    ensures SetFetchSizeCall !in cf.connection.faults.statement ==>
      cf.FetchAllFault(Raw(sql)) == LegacyConnectionLib.FetchAllFault(cf.connection, sql)
  {
  }

  /** The legacy query catches nothing: a connection never set escapes as the
      DatabaseException itself rather than as an error result. */
  lemma LegacyQueryEscapes(c: Connection?)
    ensures c == null ==> LegacyConnectionLib.QueryFault(c) == Some(DatabaseException("Connection is not initialized"))
    ensures c != null && c.closed && IsClosedCall !in c.faults.connection ==>
      LegacyConnectionLib.QueryFault(c) == Some(DatabaseException("Connection is closed"))
  {
  }

  /** In the legacy tree a healthy live connection lets every query-family call through. */
  lemma LegacyHealthySucceeds(c: Connection?, sql: string)
    requires Live(c)
    ensures LegacyConnectionLib.QueryFault(c).None?
    ensures LegacyConnectionLib.FetchOneFault(c, sql).None? && LegacyConnectionLib.FetchAllFault(c, sql).None?
    ensures LegacyConnectionLib.DirectFault(c, ExecuteUpdateCall).None? && LegacyConnectionLib.DirectFault(c, ExecuteCall).None?
  {
  }
}
