/** The connection-level behaviour shared by both ConnectionFunctions classes, as functions
    of the connection's state: `verifyConnection`, `isConnected`, and the best-effort
    operations (transactions and disconnect) that collapse every failure to `false`. */
module Lifecycle {
  import opened Outcomes
  import opened Jdbc

  const NotInitializedMessage := "Connection is not initialized"
  const IsClosedMessage := "Connection is closed"

  /** `verifyConnection()` on a connection that may never have been set (None). */
  function Verify(c: Option<ConnState>): Outcome<()> {
    match c
    case None => Thrown(DatabaseException(NotInitializedMessage))
    case Some(s) =>
      match IsClosedStep(s)
      case Thrown(f) => Thrown(f)
      case Ok(closed) => if closed then Thrown(DatabaseException(IsClosedMessage)) else Ok(())
  }

  /** `isConnected()`: set, and the driver reports it open; a failing isClosed counts as not connected. */
  function IsConnected(c: Option<ConnState>): bool {
    c.Some? && IsClosedStep(c.value) == Ok(false)
  }

  datatype BestEffortOp = BeginTransaction | Commit | Rollback | Disconnect

  /** A best-effort operation: verify the connection, then the driver calls, in order;
      the first failure stops the sequence and the answer is false. */
  function Perform(c: Option<ConnState>, op: BestEffortOp): (bool, Option<ConnState>) {
    if Verify(c).Thrown? then (false, c)
    else
      var s := c.value;
      match op
      case BeginTransaction =>
        var (o, s1) := SetAutoCommitStep(s, false);
        (o.Ok?, Some(s1))
      case Commit =>
        var (o, s1) := CommitStep(s);
        if o.Thrown? then (false, Some(s1))
        else var (o2, s2) := SetAutoCommitStep(s1, true); (o2.Ok?, Some(s2))
      case Rollback =>
        var (o, s1) := RollbackStep(s);
        if o.Thrown? then (false, Some(s1))
        else var (o2, s2) := SetAutoCommitStep(s1, true); (o2.Ok?, Some(s2))
      case Disconnect =>
        var (o, s1) := CloseStep(s);
        (o.Ok?, Some(s1))
  }

  /** verifyConnection succeeds exactly when isConnected answers true. */
  lemma VerifyMatchesIsConnected(c: Option<ConnState>)
    ensures Verify(c).Ok? <==> IsConnected(c)
  {
  }

  /** The error verifyConnection raises, by case: never set, driver failure, closed. */
  lemma VerifyFailures(c: Option<ConnState>)
    ensures c.None? ==> Verify(c) == Thrown(DatabaseException("Connection is not initialized"))
    ensures c.Some? && IsClosedCall in c.value.faults.connection ==>
      Verify(c) == Thrown(SqlException(c.value.faults.detail))
    ensures c.Some? && IsClosedCall !in c.value.faults.connection && c.value.closed ==>
      Verify(c) == Thrown(DatabaseException("Connection is closed"))
  {
  }

  /** Without a live connection every best-effort operation answers false and changes nothing. */
  lemma DeadConnectionChangesNothing(c: Option<ConnState>, op: BestEffortOp)
    requires !IsConnected(c)
    ensures Perform(c, op) == (false, c)
  {
    VerifyMatchesIsConnected(c);
  }

  /** What a successful operation leaves behind: begin turns auto-commit off; commit and
      rollback end a transaction (so auto-commit was off), log it, and turn auto-commit
      back on; disconnect closes. Nothing else changes. */
  lemma SuccessEffects(c: Option<ConnState>, op: BestEffortOp)
    requires Perform(c, op).0
    ensures IsConnected(c) && Perform(c, op).1.Some?
    ensures var s, s' := c.value, Perform(c, op).1.value;
      match op
      case BeginTransaction => s' == s.(autoCommit := false)
      case Commit => !s.autoCommit && s' == s.(autoCommit := true, log := s.log + [Committed])
      case Rollback => !s.autoCommit && s' == s.(autoCommit := true, log := s.log + [RolledBack])
      case Disconnect => s' == s.(closed := true)
  {
    VerifyMatchesIsConnected(c);
  }

  /** beginTransaction then commit on a live connection whose driver does these calls:
      both answer true, auto-commit is on again, and exactly one commit is logged. */
  lemma BeginThenCommit(s: ConnState)
    requires IsConnected(Some(s))
    requires SetAutoCommitCall !in s.faults.connection && CommitCall !in s.faults.connection
    ensures var (begun, c1) := Perform(Some(s), BeginTransaction);
      var (committed, c2) := Perform(c1, Commit);
      begun && committed && c2 == Some(s.(autoCommit := true, log := s.log + [Committed]))
  {
  }

  /** beginTransaction then rollback: the same, with a rollback logged. */
  lemma BeginThenRollback(s: ConnState)
    requires IsConnected(Some(s))
    requires SetAutoCommitCall !in s.faults.connection && RollbackCall !in s.faults.connection
    ensures var (begun, c1) := Perform(Some(s), BeginTransaction);
      var (rolledBack, c2) := Perform(c1, Rollback);
      begun && rolledBack && c2 == Some(s.(autoCommit := true, log := s.log + [RolledBack]))
  {
  }

  /** After a successful disconnect, verifyConnection reports the connection closed, so every
      later query-family call answers Error(99, "Database disconnected: Connection is closed"). */
  lemma DisconnectThenClosed(c: Option<ConnState>)
    requires Perform(c, Disconnect).0
    ensures Verify(Perform(c, Disconnect).1) == Thrown(DatabaseException("Connection is closed"))
    ensures !IsConnected(Perform(c, Disconnect).1)
  {
    VerifyMatchesIsConnected(c);
  }
}
