/** ConnectionFunctions of the current package tree: the native methods of the Connection
    entity. Each query-family call checks the connection, runs its driver calls in order
    and turns an SQLException into error code 10 and a DatabaseException into code 99;
    every other exception escapes to the caller. The query input is SQL text, a
    PreparedStatement entity, or a value that is neither a string nor an entity, which
    is refused.

    The contracts name each call's outcome through a "fault" function: the first refusal
    the call's sequence of driver calls meets, in the order the calls are made, or None
    when every call succeeds. */
module ConnectionLib {
  import opened Outcomes
  import opened Values
  import opened Results
  import opened Jdbc
  import opened Lifecycle
  import opened TypeUtility
  import opened QueryResults
  import opened Cursors

  /** What query, fetchOne, fetchAll, update and execute accept: a string, a
      PreparedStatement entity, or a value that is neither a string nor an entity. */
  datatype QueryInput = Raw(sql: string) | Prepared(statement: PreparedStatement) | Other(typeName: string)

  function InvalidStatementMessage(typeName: string): string {
    "Expected a string or a PreparedStatement, got " + typeName
  }

  /** The caller's objects a call with this input may change. */
  function Touched(q: QueryInput): set<object> {
    if q.Prepared? then {q.statement} else {}
  }

  /** The parameter conversion of prepareStatement: every value in list order, the first
      rejection thrown. */
  function ConvertParams(vs: seq<HostValue>): (r: Outcome<seq<NativeValue>>)
    ensures r.Ok? <==> forall i :: 0 <= i < |vs| ==> vs[i].Bindable()
    ensures r.Ok? ==> |r.value| == |vs| && forall i :: 0 <= i < |vs| ==> FromQilletniToNativeJava(vs[i]) == Ok(r.value[i])
    ensures r.Thrown? ==>
      && exists i :: (0 <= i < |vs| && FromQilletniToNativeJava(vs[i]) == Thrown(r.fault)
      && forall j :: 0 <= j < i ==> vs[j].Bindable())
  {
    if vs == [] then Ok([])
    else
      CoercionRejects(vs[0]);
      var head :- FromQilletniToNativeJava(vs[0]);
      var tail :- ConvertParams(vs[1..]);
      assert forall i :: 1 <= i < |vs| ==> vs[i] == vs[1..][i - 1];
      Ok([head] + tail)
  }

  /** Slot k (1-based) holds list entry k - 1. */
  function Positional(objs: seq<NativeValue>): (m: Bindings)
    ensures forall k :: k in m <==> 1 <= k <= |objs|
    ensures forall k :: 1 <= k <= |objs| ==> m[k] == objs[k - 1]
  {
    if objs == [] then map[]
    else Positional(objs[..|objs| - 1])[|objs| := objs[|objs| - 1]]
  }

  lemma PositionalStep(m: Bindings, objs: seq<NativeValue>, i: nat)
    requires i < |objs|
    ensures (m + Positional(objs[..i]))[i + 1 := objs[i]] == m + Positional(objs[..i + 1])
  {
    assert objs[..i + 1][..i] == objs[..i];
  }

  /** The first refusal of the binding loop over `n` values, on a statement whose
      setObject refusal is `refusal` and which has `slots` placeholders. */
  function BindFault(refusal: Option<Fault>, slots: nat, n: nat): Option<Fault> {
    if n == 0 then None
    else refusal.OrElse(if n > slots then Some(SqlException(ParameterIndexMessage)) else None)
  }

  /** The binding loop of prepareStatement: list entry i goes to slot i + 1, in list order,
      until the driver refuses one. */
  method Bind(ps: PreparedStatement, objs: seq<NativeValue>) returns (o: Outcome<()>)
    modifies ps
    ensures ps.closed == old(ps.closed) && ps.fetchSize == old(ps.fetchSize)
    ensures o.Failure() == BindFault(ps.Refusal(SetObjectCall), ps.db.placeholders(ps.sql), |objs|)
    ensures o.Ok? ==> ps.params == old(ps.params) + Positional(objs)
    ensures o.Thrown? ==>
      ps.params == old(ps.params) + Positional(objs[..if ps.Refusal(SetObjectCall).Some? then 0 else ps.db.placeholders(ps.sql)])
  {
    ghost var refusal, slots, start := ps.Refusal(SetObjectCall), ps.db.placeholders(ps.sql), ps.params;
    var i := 0;
    while i < |objs|
      invariant 0 <= i <= |objs|
      invariant ps.closed == old(ps.closed) && ps.fetchSize == old(ps.fetchSize)
      invariant i > 0 ==> refusal.None? && i <= slots
      invariant ps.params == start + Positional(objs[..i])
    {
      var r := ps.SetObject(i + 1, objs[i]);
      if r.Thrown? {
        assert i == if refusal.Some? then 0 else slots;
        return r;
      }
      PositionalStep(start, objs, i);
      i := i + 1;
    }
    assert objs[..i] == objs;
    return Ok(());
  }

  class ConnectionFunctions {
    var connection: Connection?

    constructor ()
      ensures connection == null
    {
      connection := null;
    }

    /** The setup hook: the entity's connection, which may never have been set. */
    method SetupConnection(c: Connection?)
      modifies this
      ensures connection == c
    {
      connection := c;
    }

    method IsConnected() returns (b: bool)
      ensures b == Lifecycle.IsConnected(Snapshot(connection))
    {
      if connection == null {
        return false;
      }
      var closed := connection.IsClosed();
      return closed == Ok(false);
    }

    method VerifyConnection() returns (o: Outcome<()>)
      ensures o == Verify(Snapshot(connection))
      ensures connection == null ==> o == Thrown(DatabaseException("Connection is not initialized"))
      ensures connection != null && connection.closed && IsClosedCall !in connection.faults.connection ==>
        o == Thrown(DatabaseException("Connection is closed"))
    {
      if connection == null {
        return Thrown(DatabaseException(NotInitializedMessage));
      }
      var closed :- connection.IsClosed();
      if closed {
        return Thrown(DatabaseException(IsClosedMessage));
      }
      return Ok(());
    }

    // ------------------------------------------------------------ specification

    /** Whether queryStatement reaches the driver: a prepared statement, or SQL text with a connection set. */
    predicate Opens(q: QueryInput)
      reads this
    {
      q.Prepared? || (q.Raw? && connection != null)
    }

    /** The statement the input stands for: its database, its text and its bound values. */
    function Target(q: QueryInput): (Database, string, Bindings)
      reads this, connection, Touched(q)
      requires Opens(q)
    {
      match q
      case Raw(sql) => (connection.db, sql, map[])
      case Prepared(ps) => (ps.db, ps.sql, ps.params)
    }

    function Answers(q: QueryInput): Answer
      reads this, connection, Touched(q)
      requires Opens(q)
    {
      var (db, sql, params) := Target(q);
      db.query(sql, params)
    }

    /** The faults that the statement behind the input, and the cursors it opens, carry. */
    function InheritedFaults(q: QueryInput): Faults
      reads this, connection, Touched(q)
      requires Opens(q)
    {
      match q
      case Raw(_) => connection.faults
      case Prepared(ps) => ps.faults
    }

    /** The first refusal queryStatement(q, fetchSize) meets before it has a cursor. */
    function OpenFault(q: QueryInput, fetchSize: int): Option<Fault>
      reads this, connection, Touched(q)
    {
      match q
      case Raw(_) =>
        if connection == null then Some(NullPointer)
        else
          ConnectionRefusal(connection.State(), CreateStatementCall)
            .OrElse(if fetchSize > 0 then StatementRefusal(false, connection.faults, SetFetchSizeCall) else None)
            .OrElse(StatementRefusal(false, connection.faults, ExecuteQueryCall))
      case Prepared(ps) =>
        (if fetchSize > 0 then ps.Refusal(GetFetchSizeCall).OrElse(ps.Refusal(SetFetchSizeCall)) else None)
          .OrElse(ps.Refusal(ExecuteQueryCall))
      case Other(t) => Some(InvalidStatementType(InvalidStatementMessage(t)))
    }

    /** A prepared statement's fetch size after queryStatement(q, fetchSize): restored when
        the call completes, left at `fetchSize` when executeQuery throws after it was set. */
    function FetchSizeAfter(ps: PreparedStatement, fetchSize: int): int
      reads ps
    {
      if fetchSize > 0 && ps.Refusal(GetFetchSizeCall).None? && ps.Refusal(SetFetchSizeCall).None?
        && ps.Refusal(ExecuteQueryCall).Some?
      then fetchSize
      else ps.fetchSize
    }

    /** Closing the pairing queryStatement returned: the cursor, then the owned statement. */
    function CloseFault(q: QueryInput): Option<Fault>
      reads this, connection, Touched(q)
      requires Opens(q)
    {
      CursorRefusal(false, InheritedFaults(q), CloseCursorCall)
        .OrElse(if q.Raw? then StatementRefusal(false, connection.faults, CloseStatementCall) else None)
    }

    /** The row loop over a freshly opened cursor, then the close of its pairing. */
    function ReadFault(q: QueryInput): Option<Fault>
      reads this, connection, Touched(q)
      requires Opens(q)
    {
      var t := Answers(q);
      RowsFault(false, InheritedFaults(q), t.rows, |t.names|).OrElse(CloseFault(q))
    }

    /** verifyConnection, then queryStatement(q, fetchSize). */
    function CheckedOpenFault(q: QueryInput, fetchSize: int): Option<Fault>
      reads this, connection, Touched(q)
    {
      Verify(Snapshot(connection)).Failure().OrElse(OpenFault(q, fetchSize))
    }

    function QueryFault(q: QueryInput): Option<Fault>
      reads this, connection, Touched(q)
    {
      var f := CheckedOpenFault(q, -1);
      if f.Some? then f else CursorRefusal(false, InheritedFaults(q), MetadataCall)
    }

    function FetchOneFault(q: QueryInput): Option<Fault>
      reads this, connection, Touched(q)
    {
      var f := CheckedOpenFault(q, 1);
      if f.Some? then f else ReadFault(q)
    }

    /** fetchAll does not verify the connection. */
    function FetchAllFault(q: QueryInput): Option<Fault>
      reads this, connection, Touched(q)
    {
      var f := OpenFault(q, -1);
      if f.Some? then f else ReadFault(q)
    }

    /** updateStatement or executeStatement making driver call `call`: SQL text runs on a
        fresh statement closed by try-with-resources, a prepared statement runs as it is. */
    function DirectFault(q: QueryInput, call: StatementCall): Option<Fault>
      reads this, connection, Touched(q)
    {
      match q
      case Raw(_) =>
        if connection == null then Some(NullPointer)
        else
          ConnectionRefusal(connection.State(), CreateStatementCall)
            .OrElse(StatementRefusal(false, connection.faults, call))
            .OrElse(StatementRefusal(false, connection.faults, CloseStatementCall))
      case Prepared(ps) => ps.Refusal(call)
      case Other(t) => Some(InvalidStatementType(InvalidStatementMessage(t)))
    }

    function PrepareFault(sql: string, params: seq<HostValue>): Option<Fault>
      reads this, connection
    {
      var f := Verify(Snapshot(connection)).Failure().OrElse(ConvertParams(params).Failure());
      if f.Some? then f
      else
        ConnectionRefusal(connection.State(), PrepareStatementCall)
          .OrElse(BindFault(StatementRefusal(false, connection.faults, SetObjectCall), connection.db.placeholders(sql), |params|))
    }

    // ------------------------------------------------------------ statements

    /** queryStatement: run the input and pair the cursor with the statement it owns. SQL
        text runs on a fresh ad hoc statement, owned by the pairing. A prepared statement
        is not owned; when `fetchSize` is positive its fetch size is swapped for the call
        and put back afterwards. A value that is neither a string nor an entity is refused.
        `adhoc` is the ad hoc statement once created; when setFetchSize or executeQuery
        then throws, no pairing owns it and it is left open. */
    method QueryStatement(q: QueryInput, fetchSize: int) returns (o: Outcome<QueryResult>, ghost adhoc: Statement?)
      modifies Touched(q)
      ensures o.Failure() == old(OpenFault(q, fetchSize))
      ensures o.Ok? ==>
        && Opens(q) && fresh(o.value) && o.value.resultSet != null && fresh(o.value.resultSet)
        && o.value.resultSet.Opened(old(Answers(q)), InheritedFaults(q)) && o.value.resultSet.Valid()
      ensures o.Ok? ==> (o.value.statement != null <==> q.Raw?)
      ensures o.Ok? && q.Raw? ==>
        && fresh(o.value.statement) && !o.value.statement.closed
        && o.value.statement.faults == connection.faults
        && o.value.statement.fetchSize == if fetchSize > 0 then fetchSize else 0
      ensures q.Prepared? ==>
        && q.statement.closed == old(q.statement.closed)
        && q.statement.params == old(q.statement.params)
        && q.statement.fetchSize == old(FetchSizeAfter(q.statement, fetchSize))
      ensures adhoc != null <==> q.Raw? && connection != null && ConnectionRefusal(connection.State(), CreateStatementCall).None?
      ensures adhoc != null ==> fresh(adhoc) && !adhoc.closed
      ensures o.Ok? && adhoc != null ==> o.value.statement == adhoc
    {
      adhoc := null;
      if q.Other? {
        return Thrown(InvalidStatementType(InvalidStatementMessage(q.typeName))), null;
      } else if q.Raw? {
        if connection == null {
          return Thrown(NullPointer), null;
        }
        var created := connection.CreateStatement();
        if created.Thrown? {
          return Thrown(created.fault), null;
        }
        var st := created.value;
        adhoc := st;
        if fetchSize > 0 {
          var resized := st.SetFetchSize(fetchSize);
          if resized.Thrown? {
            return Thrown(resized.fault), adhoc;
          }
        }
        var executed := st.ExecuteQuery(q.sql);
        if executed.Thrown? {
          return Thrown(executed.fault), adhoc;
        }
        var qr := new QueryResult(executed.value, st);
        return Ok(qr), adhoc;
      } else {
        var ps := q.statement;
        var oldFetchSize: int := -1;
        if fetchSize > 0 {
          oldFetchSize :- ps.GetFetchSize();
          var resized := ps.SetFetchSize(fetchSize);
          if resized.Thrown? {
            return Thrown(resized.fault), null;
          }
        }
        var rs :- ps.ExecuteQuery();
        if fetchSize > 0 {
          var restore := ps.SetFetchSize(oldFetchSize);
          // the same call succeeded a moment ago, and a saved size is never negative
          assert restore.Ok?;
        }
        var qr := new QueryResult.OfResultSet(rs);
        return Ok(qr), null;
      }
    }

    /** updateStatement: the update count. */
    method UpdateStatement(q: QueryInput) returns (o: Outcome<nat>, ghost adhoc: Statement?)
      ensures o.Failure() == DirectFault(q, ExecuteUpdateCall)
      ensures o.Ok? ==> Opens(q) && o.value == var (db, sql, params) := Target(q); db.update(sql, params)
      ensures adhoc != null ==>
        && q.Raw? && connection != null && fresh(adhoc)
        && adhoc.closed == (CloseStatementCall !in connection.faults.statement)
      ensures q.Raw? && connection != null && ConnectionRefusal(connection.State(), CreateStatementCall).None? ==>
        adhoc != null
    {
      adhoc := null;
      match q
      case Raw(sql) =>
        if connection == null {
          return Thrown(NullPointer), null;
        }
        var created := connection.CreateStatement();
        if created.Thrown? {
          return Thrown(created.fault), null;
        }
        var st := created.value;
        adhoc := st;
        var count := st.ExecuteUpdate(sql);
        var closing := st.Close();
        o := WithResource(count, closing);
      case Prepared(ps) =>
        o := ps.ExecuteUpdate();
      case Other(t) =>
        o := Thrown(InvalidStatementType(InvalidStatementMessage(t)));
    }

    /** executeStatement: whether the statement produced a result set. */
    method ExecuteStatement(q: QueryInput) returns (o: Outcome<bool>, ghost adhoc: Statement?)
      ensures o.Failure() == DirectFault(q, ExecuteCall)
      ensures o.Ok? ==> Opens(q) && o.value == var (db, sql, params) := Target(q); db.execute(sql, params)
      ensures adhoc != null ==>
        && q.Raw? && connection != null && fresh(adhoc)
        && adhoc.closed == (CloseStatementCall !in connection.faults.statement)
      ensures q.Raw? && connection != null && ConnectionRefusal(connection.State(), CreateStatementCall).None? ==>
        adhoc != null
    {
      adhoc := null;
      match q
      case Raw(sql) =>
        if connection == null {
          return Thrown(NullPointer), null;
        }
        var created := connection.CreateStatement();
        if created.Thrown? {
          return Thrown(created.fault), null;
        }
        var st := created.value;
        adhoc := st;
        var had := st.Execute(sql);
        var closing := st.Close();
        o := WithResource(had, closing);
      case Prepared(ps) =>
        o := ps.Execute();
      case Other(t) =>
        o := Thrown(InvalidStatementType(InvalidStatementMessage(t)));
    }

    // ------------------------------------------------------------ the query family

    /** prepareStatement(sql, params): convert every parameter, prepare, bind entry i to
        slot i + 1. Success carries the new statement, which the host wraps as a
        PreparedStatement entity; a rejected parameter escapes before anything is prepared. */
    method PrepareStatement(sql: string, params: seq<HostValue>) returns (o: Outcome<Result<PreparedStatement>>, ghost prepared: PreparedStatement?)
      ensures old(PrepareFault(sql, params)).Some? ==> o == Caught(old(PrepareFault(sql, params)).value)
      ensures old(PrepareFault(sql, params)).None? ==>
        && connection != null && o.Ok? && o.value.Success?
        && var ps := o.value.value;
          fresh(ps) && !ps.closed && ps.fetchSize == 0 && ps.sql == sql
          && ps.params == Positional(ConvertParams(params).value)
          && ps.db == connection.db && ps.faults == connection.faults
      ensures prepared != null <==>
        && Verify(Snapshot(connection)).Ok? && ConvertParams(params).Ok?
        && ConnectionRefusal(connection.State(), PrepareStatementCall).None?
      ensures prepared != null ==> fresh(prepared) && !prepared.closed
    {
      prepared := null;
      var v := VerifyConnection();
      if v.Thrown? {
        return Caught(v.fault), null;
      }
      var converted := ConvertParams(params);
      if converted.Thrown? {
        return Caught(converted.fault), null;
      }
      var created := connection.PrepareStatement(sql);
      if created.Thrown? {
        return Caught(created.fault), null;
      }
      var ps := created.value;
      prepared := ps;
      var bound := Bind(ps, converted.value);
      if bound.Thrown? {
        return Caught(bound.fault), prepared;
      }
      assert map[] + Positional(converted.value) == Positional(converted.value);
      return Ok(Success(ps)), prepared;
    }

    /** The one-argument prepareStatement: no parameters. */
    method PrepareStatementWithoutParams(sql: string) returns (o: Outcome<Result<PreparedStatement>>, ghost prepared: PreparedStatement?)
      ensures old(PrepareFault(sql, [])).Some? ==> o == Caught(old(PrepareFault(sql, [])).value)
      ensures old(PrepareFault(sql, [])).None? ==>
        && connection != null && o.Ok? && o.value.Success?
        && var ps := o.value.value;
          fresh(ps) && !ps.closed && ps.sql == sql && ps.params == map[] && ps.faults == connection.faults
    {
      o, prepared := PrepareStatement(sql, []);
    }

    /** query: run the input, read the column metadata, and hand back the open cursor with
        the statement it owns. Nothing is closed here: the handle's owner closes it, and
        the ad hoc statement of SQL text stays open when a later step throws. */
    method Query(q: QueryInput) returns (o: Outcome<Result<ResultSetHandle>>, ghost adhoc: Statement?)
      modifies Touched(q)
      ensures old(QueryFault(q)).Some? ==> o == Caught(old(QueryFault(q)).value)
      ensures old(QueryFault(q)).None? ==>
        && Opens(q) && o.Ok? && o.value.Success?
        && var h := o.value.value;
          h.metadata == MetadataOf(old(Answers(q)))
          && fresh(h.resultSet) && h.resultSet.Opened(old(Answers(q)), InheritedFaults(q))
          && (h.statement.Some? <==> q.Raw?)
          && (h.statement.Some? ==> fresh(h.statement.value) && !h.statement.value.closed)
      ensures q.Prepared? ==>
        && q.statement.closed == old(q.statement.closed)
        && q.statement.fetchSize == old(q.statement.fetchSize) && q.statement.params == old(q.statement.params)
      ensures adhoc != null <==>
        old(Verify(Snapshot(connection)).Ok? && q.Raw? && ConnectionRefusal(connection.State(), CreateStatementCall).None?)
      ensures adhoc != null ==> fresh(adhoc) && !adhoc.closed
    {
      adhoc := null;
      var v := VerifyConnection();
      if v.Thrown? {
        return Caught(v.fault), null;
      }
      var started;
      started, adhoc := QueryStatement(q, -1);
      if started.Thrown? {
        return Caught(started.fault), adhoc;
      }
      var qr := started.value;
      var metadata := ReadMetadata(qr.resultSet);
      if metadata.Thrown? {
        return Caught(metadata.fault), adhoc;
      }
      var owned := if qr.statement == null then None else Some(qr.statement);
      return Ok(Success(ResultSetHandle(metadata.value, qr.resultSet, owned))), adhoc;
    }

    /** fetchOne: run the input with fetch size 1 and read its first row inside
        try-with-resources, so the pairing is closed on every path once it exists. The ad
        hoc statement of SQL text is left open when it throws before there is a pairing. */
    method FetchOne(q: QueryInput) returns (o: Outcome<Result<Row>>, ghost pairing: QueryResult?, ghost adhoc: Statement?)
      modifies Touched(q)
      ensures old(FetchOneFault(q)).Some? ==> o == Caught(old(FetchOneFault(q)).value)
      ensures old(FetchOneFault(q)).None? ==>
        && Opens(q)
        && o == Ok(var rows := old(Answers(q)).rows; if rows == [] then NoRows() else Success(rows[0]))
      ensures pairing != null <==> old(CheckedOpenFault(q, 1)).None?
      ensures pairing != null ==>
        && fresh(pairing) && pairing.resultSet != null && fresh(pairing.resultSet)
        && (pairing.statement != null <==> q.Raw?) && (pairing.statement != null ==> fresh(pairing.statement))
        && pairing.Released()
      ensures q.Prepared? ==>
        && q.statement.closed == old(q.statement.closed)
        && q.statement.params == old(q.statement.params)
        && q.statement.fetchSize ==
             if old(Verify(Snapshot(connection))).Ok? then old(FetchSizeAfter(q.statement, 1)) else old(q.statement.fetchSize)
      ensures adhoc != null <==>
        old(Verify(Snapshot(connection)).Ok? && q.Raw? && ConnectionRefusal(connection.State(), CreateStatementCall).None?)
      ensures adhoc != null ==> fresh(adhoc)
      ensures adhoc != null && pairing == null ==> !adhoc.closed
      ensures adhoc != null && pairing != null ==> pairing.statement == adhoc
    {
      pairing, adhoc := null, null;
      var v := VerifyConnection();
      if v.Thrown? {
        return Caught(v.fault), null, null;
      }
      var started;
      started, adhoc := QueryStatement(q, 1);
      if started.Thrown? {
        return Caught(started.fault), null, adhoc;
      }
      var qr := started.value;
      pairing := qr;
      assert qr.resultSet.Remaining() == old(Answers(q)).rows;
      var first := NextRow(qr.resultSet);
      var closing := qr.Close();
      var body := WithResource(first, closing);
      if body.Thrown? {
        return Caught(body.fault), pairing, adhoc;
      }
      o := Ok(if body.value.None? then NoRows() else Success(body.value.value));
    }

    /** fetchAll: run the input and read every row inside try-with-resources. It does not
        verify the connection first: SQL text on a connection never set meets a null
        reference, and on a closed one the driver's refusal (code 10, not 99). As in
        fetchOne, an ad hoc statement with no pairing yet is left open. */
    method FetchAll(q: QueryInput) returns (o: Outcome<Result<seq<Row>>>, ghost pairing: QueryResult?, ghost adhoc: Statement?)
      modifies Touched(q)
      ensures old(FetchAllFault(q)).Some? ==> o == Caught(old(FetchAllFault(q)).value)
      ensures old(FetchAllFault(q)).None? ==> Opens(q) && o == Ok(Success(old(Answers(q)).rows))
      ensures pairing != null <==> old(OpenFault(q, -1)).None?
      ensures pairing != null ==>
        && fresh(pairing) && pairing.resultSet != null && fresh(pairing.resultSet)
        && (pairing.statement != null <==> q.Raw?) && (pairing.statement != null ==> fresh(pairing.statement))
        && pairing.Released()
      ensures q.Prepared? ==>
        && q.statement.closed == old(q.statement.closed)
        && q.statement.fetchSize == old(q.statement.fetchSize) && q.statement.params == old(q.statement.params)
      ensures adhoc != null <==>
        old(q.Raw? && connection != null && ConnectionRefusal(connection.State(), CreateStatementCall).None?)
      ensures adhoc != null ==> fresh(adhoc)
      ensures adhoc != null && pairing == null ==> !adhoc.closed
      ensures adhoc != null && pairing != null ==> pairing.statement == adhoc
    {
      pairing, adhoc := null, null;
      var started;
      started, adhoc := QueryStatement(q, -1);
      if started.Thrown? {
        return Caught(started.fault), null, adhoc;
      }
      var qr := started.value;
      pairing := qr;
      assert qr.resultSet.Remaining() == old(Answers(q)).rows;
      var rows := AllRows(qr.resultSet);
      var closing := qr.Close();
      var body := WithResource(rows, closing);
      if body.Thrown? {
        return Caught(body.fault), pairing, adhoc;
      }
      o := Ok(Success(body.value));
    }

    method Update(q: QueryInput) returns (o: Outcome<Result<nat>>, ghost adhoc: Statement?)
      ensures var f := Verify(Snapshot(connection)).Failure().OrElse(DirectFault(q, ExecuteUpdateCall));
        && (f.Some? ==> o == Caught(f.value))
        && (f.None? ==> Opens(q) && o == Ok(Success(var (db, sql, params) := Target(q); db.update(sql, params))))
      ensures adhoc != null ==>
        && q.Raw? && connection != null && fresh(adhoc)
        && adhoc.closed == (CloseStatementCall !in connection.faults.statement)
    {
      adhoc := null;
      var v := VerifyConnection();
      if v.Thrown? {
        return Caught(v.fault), null;
      }
      var count;
      count, adhoc := UpdateStatement(q);
      if count.Thrown? {
        return Caught(count.fault), adhoc;
      }
      o := Ok(Success(count.value));
    }

    method Execute(q: QueryInput) returns (o: Outcome<Result<bool>>, ghost adhoc: Statement?)
      ensures var f := Verify(Snapshot(connection)).Failure().OrElse(DirectFault(q, ExecuteCall));
        && (f.Some? ==> o == Caught(f.value))
        && (f.None? ==> Opens(q) && o == Ok(Success(var (db, sql, params) := Target(q); db.execute(sql, params))))
      ensures adhoc != null ==>
        && q.Raw? && connection != null && fresh(adhoc)
        && adhoc.closed == (CloseStatementCall !in connection.faults.statement)
    {
      adhoc := null;
      var v := VerifyConnection();
      if v.Thrown? {
        return Caught(v.fault), null;
      }
      var had;
      had, adhoc := ExecuteStatement(q);
      if had.Thrown? {
        return Caught(had.fault), adhoc;
      }
      o := Ok(Success(had.value));
    }

    // ------------------------------------------------------------ transactions

    method BeginTransaction() returns (b: bool)
      modifies connection
      ensures (b, Snapshot(connection)) == Perform(old(Snapshot(connection)), BestEffortOp.BeginTransaction)
    {
      var v := VerifyConnection();
      if v.Thrown? {
        return false;
      }
      var off := connection.SetAutoCommit(false);
      return off.Ok?;
    }

    method Commit() returns (b: bool)
      modifies connection
      ensures (b, Snapshot(connection)) == Perform(old(Snapshot(connection)), BestEffortOp.Commit)
    {
      var v := VerifyConnection();
      if v.Thrown? {
        return false;
      }
      var done := connection.Commit();
      if done.Thrown? {
        return false;
      }
      var on := connection.SetAutoCommit(true);
      return on.Ok?;
    }

    method Rollback() returns (b: bool)
      modifies connection
      ensures (b, Snapshot(connection)) == Perform(old(Snapshot(connection)), BestEffortOp.Rollback)
    {
      var v := VerifyConnection();
      if v.Thrown? {
        return false;
      }
      var done := connection.Rollback();
      if done.Thrown? {
        return false;
      }
      var on := connection.SetAutoCommit(true);
      return on.Ok?;
    }

    method Disconnect() returns (b: bool)
      modifies connection
      ensures (b, Snapshot(connection)) == Perform(old(Snapshot(connection)), BestEffortOp.Disconnect)
    {
      var v := VerifyConnection();
      if v.Thrown? {
        return false;
      }
      var closed := connection.Close();
      return closed.Ok?;
    }
  }
}
