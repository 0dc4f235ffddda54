/** An abstract JDBC driver: a connection, ad hoc and prepared statements, and result-set
    cursors over a table of rows. SQL itself is not modelled: a Database is a set of total
    functions from statement text and bound parameters to answers. Failures are explicit:
    a connection carries a Faults value naming the driver calls that throw SQLException,
    and the statements and cursors it creates inherit it. As in the PostgreSQL driver,
    calls on a closed object throw too, except `isClosed` and `close`, which on a closed
    object is a no-op. The message texts below are the model's own.

    The driver methods are this model's definition of the driver, not properties of the
    bridge: each one's contract is its step function or refusal rule, and the bridge's
    modules are proved against those contracts. */
module Jdbc {
  import opened Outcomes
  import opened Values

  type Row = seq<NativeValue>

  /** Positional parameter slots, 1-based, to the values bound there. */
  type Bindings = map<int, NativeValue>

  /** What a query answers: its column names and labels, and its rows in cursor order. */
  datatype Table = Table(names: seq<string>, labels: seq<string>, rows: seq<Row>) {
    /** Names and labels describe the same columns, and every row has one value per column. */
    predicate WellFormed() {
      |labels| == |names| && forall k :: 0 <= k < |rows| ==> |rows[k]| == |names|
    }
  }

  type Answer = t: Table | t.WellFormed() witness Table([], [], [])

  datatype Database = Database(
    query: (string, Bindings) -> Answer,
    update: (string, Bindings) -> nat,
    execute: (string, Bindings) -> bool,
    placeholders: string -> nat)

  datatype ConnectionCall =
    IsClosedCall | CreateStatementCall | PrepareStatementCall | SetAutoCommitCall | CommitCall | RollbackCall | CloseConnectionCall
  datatype StatementCall =
    GetFetchSizeCall | SetFetchSizeCall | ExecuteQueryCall | ExecuteUpdateCall | ExecuteCall | SetObjectCall | CloseStatementCall
  datatype CursorCall = NextCall | MetadataCall | GetObjectCall | CloseCursorCall

  /** The driver calls that throw SQLException with message `detail`. */
  datatype Faults = Faults(
    connection: set<ConnectionCall>, statement: set<StatementCall>, cursor: set<CursorCall>, detail: string)

  const ConnectionClosedMessage := "This connection has been closed."
  const StatementClosedMessage := "This statement has been closed."
  const ResultSetClosedMessage := "This ResultSet is closed."
  const NotOnRowMessage := "ResultSet not positioned properly, perhaps you need to call next."
  const ColumnIndexMessage := "The column index is out of range."
  const ParameterIndexMessage := "The parameter index is out of range."
  const FetchSizeMessage := "Fetch size must be a value greater to or equal to 0."
  const CommitInAutoCommitMessage := "Cannot commit when autoCommit is enabled."
  const RollbackInAutoCommitMessage := "Cannot rollback when autoCommit is enabled."

  function ColumnNameMessage(name: string): string {
    "The column name " + name + " was not found in this ResultSet."
  }

  // ---------------------------------------------------------------- connection

  datatype TxEvent = Committed | RolledBack

  /** The observable state of a connection; `log` records the commits and rollbacks done. */
  datatype ConnState = ConnState(closed: bool, autoCommit: bool, log: seq<TxEvent>, faults: Faults)

  function ConnectionRefusal(s: ConnState, call: ConnectionCall): Option<Fault> {
    if call in s.faults.connection then Some(SqlException(s.faults.detail))
    else if s.closed && call != IsClosedCall && call != CloseConnectionCall then Some(SqlException(ConnectionClosedMessage))
    else None
  }

  function IsClosedStep(s: ConnState): Outcome<bool> {
    Guarded(ConnectionRefusal(s, IsClosedCall), Ok(s.closed))
  }

  function SetAutoCommitStep(s: ConnState, on: bool): (Outcome<()>, ConnState) {
    var r := ConnectionRefusal(s, SetAutoCommitCall);
    if r.Some? then (Thrown(r.value), s) else (Ok(()), s.(autoCommit := on))
  }

  /** Commit ends the current transaction; in auto-commit mode there is none and the driver throws. */
  function CommitStep(s: ConnState): (Outcome<()>, ConnState) {
    var r := ConnectionRefusal(s, CommitCall);
    if r.Some? then (Thrown(r.value), s)
    else if s.autoCommit then (Thrown(SqlException(CommitInAutoCommitMessage)), s)
    else (Ok(()), s.(log := s.log + [Committed]))
  }

  function RollbackStep(s: ConnState): (Outcome<()>, ConnState) {
    var r := ConnectionRefusal(s, RollbackCall);
    if r.Some? then (Thrown(r.value), s)
    else if s.autoCommit then (Thrown(SqlException(RollbackInAutoCommitMessage)), s)
    else (Ok(()), s.(log := s.log + [RolledBack]))
  }

  function CloseStep(s: ConnState): (Outcome<()>, ConnState) {
    var r := ConnectionRefusal(s, CloseConnectionCall);
    if r.Some? then (Thrown(r.value), s) else (Ok(()), s.(closed := true))
  }

  class Connection {
    var closed: bool
    var autoCommit: bool
    var log: seq<TxEvent>
    const db: Database
    const faults: Faults

    function State(): ConnState
      reads this
    {
      ConnState(closed, autoCommit, log, faults)
    }

    constructor (db: Database, faults: Faults)
      ensures State() == ConnState(false, true, [], faults) && this.db == db
    {
      this.db := db;
      this.faults := faults;
      closed, autoCommit, log := false, true, [];
    }

    method IsClosed() returns (o: Outcome<bool>)
      ensures o == IsClosedStep(State())
    {
      o := IsClosedStep(State());
    }

    method CreateStatement() returns (o: Outcome<Statement>)
      ensures ConnectionRefusal(State(), CreateStatementCall).Some? ==>
        o == Thrown(ConnectionRefusal(State(), CreateStatementCall).value)
      ensures ConnectionRefusal(State(), CreateStatementCall).None? ==>
        o.Ok? && fresh(o.value) && o.value.Opened(db, faults)
    {
      var r := ConnectionRefusal(State(), CreateStatementCall);
      if r.Some? {
        return Thrown(r.value);
      }
      var st := new Statement(db, faults);
      return Ok(st);
    }

    method PrepareStatement(sql: string) returns (o: Outcome<PreparedStatement>)
      ensures ConnectionRefusal(State(), PrepareStatementCall).Some? ==>
        o == Thrown(ConnectionRefusal(State(), PrepareStatementCall).value)
      ensures ConnectionRefusal(State(), PrepareStatementCall).None? ==>
        o.Ok? && fresh(o.value) && o.value.Opened(sql, db, faults)
    {
      var r := ConnectionRefusal(State(), PrepareStatementCall);
      if r.Some? {
        return Thrown(r.value);
      }
      var ps := new PreparedStatement(sql, db, faults);
      return Ok(ps);
    }

    method SetAutoCommit(on: bool) returns (o: Outcome<()>)
      modifies this
      ensures (o, State()) == SetAutoCommitStep(old(State()), on)
    {
      var s;
      o, s := SetAutoCommitStep(State(), on).0, SetAutoCommitStep(State(), on).1;
      closed, autoCommit, log := s.closed, s.autoCommit, s.log;
    }

    method Commit() returns (o: Outcome<()>)
      modifies this
      ensures (o, State()) == CommitStep(old(State()))
    {
      var s;
      o, s := CommitStep(State()).0, CommitStep(State()).1;
      closed, autoCommit, log := s.closed, s.autoCommit, s.log;
    }

    method Rollback() returns (o: Outcome<()>)
      modifies this
      ensures (o, State()) == RollbackStep(old(State()))
    {
      var s;
      o, s := RollbackStep(State()).0, RollbackStep(State()).1;
      closed, autoCommit, log := s.closed, s.autoCommit, s.log;
    }

    method Close() returns (o: Outcome<()>)
      modifies this
      ensures (o, State()) == CloseStep(old(State()))
    {
      var s;
      o, s := CloseStep(State()).0, CloseStep(State()).1;
      closed, autoCommit, log := s.closed, s.autoCommit, s.log;
    }
  }

  /** The state of a possibly absent connection; None is a connection that was never set. */
  function Snapshot(c: Connection?): Option<ConnState>
    reads c
  {
    if c == null then None else Some(c.State())
  }

  // ---------------------------------------------------------------- statements

  function StatementRefusal(closed: bool, faults: Faults, call: StatementCall): Option<Fault> {
    if call in faults.statement then Some(SqlException(faults.detail))
    else if closed && call != CloseStatementCall then Some(SqlException(StatementClosedMessage))
    else None
  }

  /** The outcome of setFetchSize(n) on a statement that does not refuse it. */
  function FetchSizeCheck(n: int): Outcome<()> {
    if n < 0 then Thrown(SqlException(FetchSizeMessage)) else Ok(())
  }

  /** An ad hoc statement: SQL text is given to each execute call. */
  class Statement {
    var closed: bool
    var fetchSize: nat
    const db: Database
    const faults: Faults

    function Refusal(call: StatementCall): Option<Fault>
      reads this
    {
      StatementRefusal(closed, faults, call)
    }

    /** Freshly created from a connection with this database and these faults. */
    ghost predicate Opened(db: Database, faults: Faults)
      reads this
    {
      !closed && fetchSize == 0 && this.faults == faults && this.db == db
    }

    constructor (db: Database, faults: Faults)
      ensures Opened(db, faults)
    {
      this.db := db;
      this.faults := faults;
      closed, fetchSize := false, 0;
    }

    method SetFetchSize(n: int) returns (o: Outcome<()>)
      modifies this
      ensures o == Guarded(Refusal(SetFetchSizeCall), FetchSizeCheck(n))
      ensures closed == old(closed) && fetchSize == if o.Ok? then n else old(fetchSize)
    {
      o := Guarded(Refusal(SetFetchSizeCall), FetchSizeCheck(n));
      if o.Ok? {
        fetchSize := n;
      }
    }

    method ExecuteQuery(sql: string) returns (o: Outcome<ResultSet>)
      ensures Refusal(ExecuteQueryCall).Some? ==> o == Thrown(Refusal(ExecuteQueryCall).value)
      ensures Refusal(ExecuteQueryCall).None? ==>
        o.Ok? && fresh(o.value) && o.value.Opened(db.query(sql, map[]), faults)
    {
      var r := Refusal(ExecuteQueryCall);
      if r.Some? {
        return Thrown(r.value);
      }
      var rs := new ResultSet(db.query(sql, map[]), faults);
      return Ok(rs);
    }

    method ExecuteUpdate(sql: string) returns (o: Outcome<nat>)
      ensures o == Guarded(Refusal(ExecuteUpdateCall), Ok(db.update(sql, map[])))
    {
      o := Guarded(Refusal(ExecuteUpdateCall), Ok(db.update(sql, map[])));
    }

    method Execute(sql: string) returns (o: Outcome<bool>)
      ensures o == Guarded(Refusal(ExecuteCall), Ok(db.execute(sql, map[])))
    {
      o := Guarded(Refusal(ExecuteCall), Ok(db.execute(sql, map[])));
    }

    method Close() returns (o: Outcome<()>)
      modifies this
      ensures o == old(Guarded(Refusal(CloseStatementCall), Ok(())))
      ensures closed == (old(closed) || o.Ok?) && fetchSize == old(fetchSize)
    {
      o := Guarded(Refusal(CloseStatementCall), Ok(()));
      if o.Ok? {
        closed := true;
      }
    }
  }

  /** A statement compiled once from `sql`, executed with the values bound to its slots. */
  class PreparedStatement {
    var closed: bool
    var fetchSize: nat
    var params: Bindings
    const sql: string
    const db: Database
    const faults: Faults

    function Refusal(call: StatementCall): Option<Fault>
      reads this
    {
      StatementRefusal(closed, faults, call)
    }

    ghost predicate Opened(sql: string, db: Database, faults: Faults)
      reads this
    {
      !closed && fetchSize == 0 && params == map[] && this.sql == sql && this.faults == faults && this.db == db
    }

    /** The outcome of setObject(index, _) when the statement does not refuse it. */
    function SlotCheck(index: int): Outcome<()> {
      if 1 <= index <= db.placeholders(sql) then Ok(()) else Thrown(SqlException(ParameterIndexMessage))
    }

    constructor (sql: string, db: Database, faults: Faults)
      ensures Opened(sql, db, faults)
    {
      this.sql := sql;
      this.db := db;
      this.faults := faults;
      closed, fetchSize, params := false, 0, map[];
    }

    method GetFetchSize() returns (o: Outcome<nat>)
      ensures o == Guarded(Refusal(GetFetchSizeCall), Ok(fetchSize))
    {
      o := Guarded(Refusal(GetFetchSizeCall), Ok(fetchSize));
    }

    method SetFetchSize(n: int) returns (o: Outcome<()>)
      modifies this
      ensures o == Guarded(Refusal(SetFetchSizeCall), FetchSizeCheck(n))
      ensures closed == old(closed) && params == old(params)
      ensures fetchSize == if o.Ok? then n else old(fetchSize)
    {
      o := Guarded(Refusal(SetFetchSizeCall), FetchSizeCheck(n));
      if o.Ok? {
        fetchSize := n;
      }
    }

    method SetObject(index: int, v: NativeValue) returns (o: Outcome<()>)
      modifies this
      ensures o == Guarded(Refusal(SetObjectCall), SlotCheck(index))
      ensures closed == old(closed) && fetchSize == old(fetchSize)
      ensures params == if o.Ok? then old(params)[index := v] else old(params)
    {
      o := Guarded(Refusal(SetObjectCall), SlotCheck(index));
      if o.Ok? {
        params := params[index := v];
      }
    }

    method ExecuteQuery() returns (o: Outcome<ResultSet>)
      ensures Refusal(ExecuteQueryCall).Some? ==> o == Thrown(Refusal(ExecuteQueryCall).value)
      ensures Refusal(ExecuteQueryCall).None? ==>
        o.Ok? && fresh(o.value) && o.value.Opened(db.query(sql, params), faults)
    {
      var r := Refusal(ExecuteQueryCall);
      if r.Some? {
        return Thrown(r.value);
      }
      var rs := new ResultSet(db.query(sql, params), faults);
      return Ok(rs);
    }

    method ExecuteUpdate() returns (o: Outcome<nat>)
      ensures o == Guarded(Refusal(ExecuteUpdateCall), Ok(db.update(sql, params)))
    {
      o := Guarded(Refusal(ExecuteUpdateCall), Ok(db.update(sql, params)));
    }

    method Execute() returns (o: Outcome<bool>)
      ensures o == Guarded(Refusal(ExecuteCall), Ok(db.execute(sql, params)))
    {
      o := Guarded(Refusal(ExecuteCall), Ok(db.execute(sql, params)));
    }

    method Close() returns (o: Outcome<()>)
      modifies this
      ensures o == old(Guarded(Refusal(CloseStatementCall), Ok(())))
      ensures closed == (old(closed) || o.Ok?) && fetchSize == old(fetchSize) && params == old(params)
    {
      o := Guarded(Refusal(CloseStatementCall), Ok(()));
      if o.Ok? {
        closed := true;
      }
    }
  }

  // ---------------------------------------------------------------- cursors

  function CursorRefusal(closed: bool, faults: Faults, call: CursorCall): Option<Fault> {
    if call in faults.cursor then Some(SqlException(faults.detail))
    else if closed && call != CloseCursorCall then Some(SqlException(ResultSetClosedMessage))
    else None
  }

  /** The first column whose label is `name`. */
  function ColumnOf(labels: seq<string>, name: string): (r: Option<nat>)
    ensures r.Some? ==> r.value < |labels| && labels[r.value] == name
    ensures r.Some? ==> forall j :: 0 <= j < r.value ==> labels[j] != name
    ensures r.None? ==> name !in labels
  {
    if labels == [] then None
    else if labels[0] == name then Some(0)
    else match ColumnOf(labels[1..], name)
      case None => assert labels == [labels[0]] + labels[1..]; None
      case Some(k) => Some(k + 1)
  }

  /** A forward-only cursor. `pos` 0 is before the first row, 1..|rows| is on that row
      (1-based), and |rows| + 1 is after the last. */
  class ResultSet {
    var pos: nat
    var closed: bool
    const table: Answer
    const faults: Faults

    ghost predicate Valid()
      reads this
    {
      pos <= |table.rows| + 1
    }

    ghost predicate Opened(table: Answer, faults: Faults)
      reads this
    {
      pos == 0 && !closed && this.table == table && this.faults == faults
    }

    function Refusal(call: CursorCall): Option<Fault>
      reads this
    {
      CursorRefusal(closed, faults, call)
    }

    function ColumnCount(): nat {
      |table.names|
    }

    predicate OnRow()
      reads this
    {
      1 <= pos <= |table.rows|
    }

    function CurrentRow(): Row
      reads this
      requires OnRow()
    {
      table.rows[pos - 1]
    }

    /** The rows that `next` will still reach. */
    function Remaining(): seq<Row>
      reads this
      requires Valid()
    {
      if pos <= |table.rows| then table.rows[pos..] else []
    }

    /** getObject(column), 1-based. */
    function ObjectAt(column: int): Outcome<NativeValue>
      reads this
    {
      Guarded(Refusal(GetObjectCall),
        if !OnRow() then Thrown(SqlException(NotOnRowMessage))
        else if 1 <= column <= ColumnCount() then Ok(CurrentRow()[column - 1])
        else Thrown(SqlException(ColumnIndexMessage)))
    }

    /** getObject(label): the first column with that label. */
    function ObjectNamed(name: string): Outcome<NativeValue>
      reads this
    {
      Guarded(Refusal(GetObjectCall),
        match ColumnOf(table.labels, name)
        case None => Thrown(SqlException(ColumnNameMessage(name)))
        case Some(k) => ObjectAt(k + 1))
    }

    constructor (table: Answer, faults: Faults)
      ensures Opened(table, faults) && Valid()
    {
      this.table := table;
      this.faults := faults;
      pos, closed := 0, false;
    }

    method Next() returns (o: Outcome<bool>)
      requires Valid()
      modifies this
      ensures Valid() && closed == old(closed)
      ensures o == Guarded(Refusal(NextCall), Ok(old(pos) < |table.rows|))
      ensures pos == if o.Ok? && old(pos) <= |table.rows| then old(pos) + 1 else old(pos)
    {
      o := Guarded(Refusal(NextCall), Ok(pos < |table.rows|));
      if o.Ok? && pos <= |table.rows| {
        pos := pos + 1;
      }
    }

    /** getMetaData().getColumnCount() */
    method GetColumnCount() returns (o: Outcome<nat>)
      ensures o == Guarded(Refusal(MetadataCall), Ok(ColumnCount()))
    {
      o := Guarded(Refusal(MetadataCall), Ok(ColumnCount()));
    }

    /** getMetaData().getColumnName(column), 1-based. */
    method GetColumnName(column: int) returns (o: Outcome<string>)
      ensures o == Guarded(Refusal(MetadataCall),
        if 1 <= column <= ColumnCount() then Ok(table.names[column - 1]) else Thrown(SqlException(ColumnIndexMessage)))
    {
      o := Guarded(Refusal(MetadataCall),
        if 1 <= column <= ColumnCount() then Ok(table.names[column - 1]) else Thrown(SqlException(ColumnIndexMessage)));
    }

    /** getMetaData().getColumnLabel(column), 1-based. */
    method GetColumnLabel(column: int) returns (o: Outcome<string>)
      ensures o == Guarded(Refusal(MetadataCall),
        if 1 <= column <= ColumnCount() then Ok(table.labels[column - 1]) else Thrown(SqlException(ColumnIndexMessage)))
    {
      o := Guarded(Refusal(MetadataCall),
        if 1 <= column <= ColumnCount() then Ok(table.labels[column - 1]) else Thrown(SqlException(ColumnIndexMessage)));
    }

    method GetObject(column: int) returns (o: Outcome<NativeValue>)
      ensures o == ObjectAt(column)
    {
      o := ObjectAt(column);
    }

    method GetObjectNamed(name: string) returns (o: Outcome<NativeValue>)
      ensures o == ObjectNamed(name)
    {
      o := ObjectNamed(name);
    }

    method Close() returns (o: Outcome<()>)
      modifies this
      ensures o == old(Guarded(Refusal(CloseCursorCall), Ok(())))
      ensures closed == (old(closed) || o.Ok?) && pos == old(pos)
    {
      o := Guarded(Refusal(CloseCursorCall), Ok(()));
      if o.Ok? {
        closed := true;
      }
    }
  }
}
