# QilletniPostgres bridge, modelled in Dafny

QilletniPostgres is the PostgreSQL library of the Qilletni language. Its native Java
classes sit behind four Qilletni entities:

- **Connection** (ConnectionFunctions): checks the connection, runs SQL text or
  PreparedStatement entities, and wraps every answer in a `Result` entity. The result is
  `Success(value)` or `Error(code, message)`, with code 1 for "no rows", 10 for an
  SQLException and 99 for a DatabaseException ("disconnected"). It also offers the
  best-effort transaction calls `beginTransaction`, `commit`, `rollback` and
  `disconnect`, which answer false on any failure.
- **ResultSet** (ResultSetFunctions): walks the cursor with `hasNext`. `getValue` takes a
  column label or a 0-based index; `close` closes the cursor and the statement behind it.
- **PreparedStatement** (PreparedStatementFunctions): binds parameters with `setParam`
  and closes with `close`.
- **DatabaseTypeUtility**: turns host values into the Java objects the driver binds.

The repository ships these classes twice. The current package tree is `dev.qilletni`;
the legacy tree `is.yarr.qilletni` has no prepared statements in its ConnectionFunctions,
leaks its ad hoc statements, and lets `query` throw. Both trees are modelled:

- **Separate modules:** ConnectionLib and ResultSetLib are the current tree;
  LegacyConnectionLib and LegacyResultSetLib are the legacy tree.
- **Shared modules:** TypeUtility and PreparedStatementLib are textually the same in both
  trees, apart from the package name, so each is one module.

The JDBC driver is modelled abstractly (module Jdbc):

- **Classes:** a `Connection`, ad hoc `Statement`s, `PreparedStatement`s and forward-only
  `ResultSet` cursors, each a class whose methods update its fields.
- **The database:** total functions from statement text and bound parameters to answers.
- **Failures:** a connection carries a `Faults` record naming the driver calls that throw
  SQLException. The statements and cursors it creates inherit it.
- **Closed objects:** they refuse every call except `isClosed` and `close`, as in the
  PostgreSQL driver.

Java exceptions are values of `Outcome<T>` (`Ok` or `Thrown(fault)`), propagated with
`:-` where Java propagates them. Each query-family call gets a *fault function*. It names
the first refusal that the call's sequence of driver calls meets, in the order the calls
are made, or None when every call succeeds. Each method is proved to return
`Caught(fault)` when the fault function gives a fault; Caught turns an SQLException into
code 10, a DatabaseException into code 99 and rethrows anything else. Otherwise the method
returns the answer the database gives. Ghost out-parameters expose the statements and
cursors a call creates, so the contracts can state which of them end up closed.

## Model

| member | source | states |
|---|---|---|
| Values.WrapInt32 | src/main/java/dev/qilletni/lib/postgres/ResultSetFunctions.java:42 | Java's narrowing `(int)` cast and 32-bit `+`: the result is congruent to the input modulo 2^32 and equals it when it is in range |
| ColumnAccess.DriverColumn | src/main/java/dev/qilletni/lib/postgres/ResultSetFunctions.java:42 | index i reads driver column i + 1 when i is in int range below 2^31 - 1; i = 2^31 - 1 wraps to -2^31; always congruent to i + 1 modulo 2^32 |
| ColumnAccess.ValueAt | src/main/java/dev/qilletni/lib/postgres/ResultSetFunctions.java:37-49 | getValue's column access as a function of the cursor: a string reads by label, an int at driver column DriverColumn(i), any other kind is null without a driver call, and a refusal comes back Rewrapped; its properties are stated by ZeroBasedIndex, IndexOutOfRange, IndexTruncated, ByLabel, OtherKindsNull and NoSqlExceptionEscapes |
| ColumnAccess.Rewrapped | src/main/java/dev/qilletni/lib/postgres/ResultSetFunctions.java:46-48 | the re-raised fault is never an SQLException: an SQLException becomes a DatabaseException carrying the cause's description, and other exceptions pass unchanged |
| ColumnAccess.ZeroBasedIndex | src/main/java/dev/qilletni/lib/postgres/ResultSetFunctions.java:41-42 | on a row, getValue with index i in 0..columns-1 answers the row's entry i |
| ColumnAccess.IndexOutOfRange | src/main/java/dev/qilletni/lib/postgres/ResultSetFunctions.java:41-48 | a negative index, or one at or past the column count, fails with the driver's column-index error re-raised as a DatabaseException |
| ColumnAccess.IndexTruncated | src/main/java/dev/qilletni/lib/postgres/ResultSetFunctions.java:42 | indices 2^32 apart read the same column, because the long index is truncated to int |
| ColumnAccess.ByLabel | src/main/java/dev/qilletni/lib/postgres/ResultSetFunctions.java:39-40 | a label reads the first column carrying it; a missing label fails with a DatabaseException |
| ColumnAccess.OtherKindsNull | src/main/java/dev/qilletni/lib/postgres/ResultSetFunctions.java:45 | a column of any kind other than string or int answers null, whatever the cursor's state |
| ColumnAccess.NoSqlExceptionEscapes | src/main/java/dev/qilletni/lib/postgres/ResultSetFunctions.java:46-48 | every failure of getValue escapes as a DatabaseException, never as an SQLException |
| TypeUtility.FromQilletniToNativeJava | src/main/java/dev/qilletni/lib/postgres/DatabaseTypeUtility.java:13-26 | the conversion: a value that is not a value type is rejected first, then boolean, double, int and string map to their Java objects and every other value type is rejected with its type name; its properties are stated by CoercionRoundTrip, CoercionRejects and CoercionInjective |
| TypeUtility.CoercionRoundTrip | src/main/java/dev/qilletni/lib/postgres/DatabaseTypeUtility.java:18-22 | boolean, double, int and string values convert, and converting back gives the same value |
| TypeUtility.CoercionRejects | src/main/java/dev/qilletni/lib/postgres/DatabaseTypeUtility.java:14-25 | a value is rejected exactly when it is none of the four bindable kinds, with "Invalid type for PreparedStatement: " and its type name |
| TypeUtility.CoercionInjective | src/main/java/dev/qilletni/lib/postgres/DatabaseTypeUtility.java:18-22 | distinct values convert to distinct objects |
| Results.Format | src/main/java/dev/qilletni/lib/postgres/ConnectionFunctions.java:351-354 | the `formatted` call of createResult: each `%s` takes the next argument, unused arguments are ignored, and a missing argument or another conversion is None (Java's exception); its properties are stated by FormatLiteral and FormatOneSlot |
| Results.FormatLiteral | src/main/java/dev/qilletni/lib/postgres/ConnectionFunctions.java:353 | a template without `%` formats to itself, whatever the arguments |
| Results.FormatOneSlot | src/main/java/dev/qilletni/lib/postgres/ConnectionFunctions.java:353 | a template that is literal text then one `%s` formats to the text followed by the first argument |
| Results.ErrorResult | src/main/java/dev/qilletni/lib/postgres/ConnectionFunctions.java:351-354 | createResult(kind, args) is an Error with the kind's code and its template filled with the first argument |
| Results.Caught | src/main/java/dev/qilletni/lib/postgres/ConnectionFunctions.java:232-235 | an SQLException becomes Error(10, "SQL Exception: " + message), a DatabaseException Error(99, "Database disconnected: " + message); anything else escapes unchanged |
| Results.NoRows | src/main/java/dev/qilletni/lib/postgres/ConnectionFunctions.java:231 | the no-rows result is Error(1, "No rows returned") |
| Results.CodesIdentifyKinds | src/main/java/dev/qilletni/lib/postgres/ConnectionFunctions.java:361-365 | the four error kinds have distinct codes |
| Lifecycle.Verify | src/main/java/dev/qilletni/lib/postgres/ConnectionFunctions.java:341-349 | verifyConnection over the connection state: "Connection is not initialized" when unset, the isClosed refusal when isClosed throws, "Connection is closed" when closed, otherwise success; related to isConnected by VerifyMatchesIsConnected and to its messages by VerifyFailures |
| Lifecycle.IsConnected | src/main/java/dev/qilletni/lib/postgres/ConnectionFunctions.java:62-68 | isConnected over the connection state: set and isClosed answers false; a refused isClosed is false; the partner of Verify in VerifyMatchesIsConnected |
| Lifecycle.Perform | src/main/java/dev/qilletni/lib/postgres/ConnectionFunctions.java:291-339 | the four best-effort operations: verify, then the driver calls in order, the first failure stopping the sequence with false; its properties are stated by DeadConnectionChangesNothing, SuccessEffects, BeginThenCommit, BeginThenRollback and DisconnectThenClosed |
| Lifecycle.VerifyMatchesIsConnected | src/main/java/dev/qilletni/lib/postgres/ConnectionFunctions.java:62-68 | verifyConnection succeeds exactly when isConnected answers true |
| Lifecycle.VerifyFailures | src/main/java/dev/qilletni/lib/postgres/ConnectionFunctions.java:341-349 | verifyConnection's error in each case: never set, isClosed refused, or closed |
| Lifecycle.DeadConnectionChangesNothing | src/main/java/dev/qilletni/lib/postgres/ConnectionFunctions.java:291-339 | without a live connection every transaction call and disconnect answers false and changes nothing |
| Lifecycle.SuccessEffects | src/main/java/dev/qilletni/lib/postgres/ConnectionFunctions.java:291-339 | a true answer means: begin turned auto-commit off; commit or rollback found auto-commit off, logged the commit or rollback and turned auto-commit on; disconnect closed the connection |
| Lifecycle.BeginThenCommit | src/main/java/dev/qilletni/lib/postgres/ConnectionFunctions.java:291-314 | begin then commit on a live connection both succeed, restore auto-commit and log exactly one commit |
| Lifecycle.BeginThenRollback | src/main/java/dev/qilletni/lib/postgres/ConnectionFunctions.java:291-327 | begin then rollback both succeed, restore auto-commit and log exactly one rollback |
| Lifecycle.DisconnectThenClosed | src/main/java/dev/qilletni/lib/postgres/ConnectionFunctions.java:329-349 | after a successful disconnect, verifyConnection reports "Connection is closed" and isConnected is false |
| QueryResults.QueryResult.constructor | src/main/java/dev/qilletni/lib/postgres/QueryResult.java:14 | the pairing holds the given result set and statement |
| QueryResults.QueryResult.OfResultSet | src/main/java/dev/qilletni/lib/postgres/QueryResult.java:16-18 | the one-argument constructor pairs a result set with no statement |
| QueryResults.QueryResult.Close | src/main/java/dev/qilletni/lib/postgres/QueryResult.java:21-24 | closes the result set, then the statement; the first driver refusal propagates, and a refused result-set close leaves the statement untouched |
| Cursors.ReadMetadata | src/main/java/dev/qilletni/lib/postgres/ConnectionFunctions.java:194-200 | the metadata loop returns the table's column names and labels, one entry per column, or the cursor's metadata refusal |
| Cursors.ReadRow | src/main/java/dev/qilletni/lib/postgres/ConnectionFunctions.java:221-225 | the row loop returns the current row, one value per column, or the first refusal |
| Cursors.NextRow | src/main/java/dev/qilletni/lib/postgres/ConnectionFunctions.java:219-227 | one step: the first remaining row or none, and the cursor advances past it; fails exactly with the row loops' first refusal |
| Cursors.AllRows | src/main/java/dev/qilletni/lib/postgres/ConnectionFunctions.java:246-255 | every remaining row, in cursor order, or the row loops' first refusal |
| Cursors.WithResource | src/main/java/dev/qilletni/lib/postgres/ConnectionFunctions.java:215-229 | try-with-resources (fetchOne here, and fetchAll, updateStatement and executeStatement alike): the body's exception wins, otherwise a failing close replaces the body's result; the methods that use it state its effect in their contracts |
| ConnectionLib.ConvertParams | src/main/java/dev/qilletni/lib/postgres/ConnectionFunctions.java:167-173 | succeeds exactly when every parameter is bindable, converting each in order; otherwise throws the first rejection |
| ConnectionLib.Positional | src/main/java/dev/qilletni/lib/postgres/ConnectionFunctions.java:176-178 | slots 1..n hold list entries 0..n-1 and nothing else |
| ConnectionLib.Bind | src/main/java/dev/qilletni/lib/postgres/ConnectionFunctions.java:176-178 | binds entry i to slot i + 1 in list order; fails with the first setObject refusal, or the parameter-index error once the slots run out |
| ConnectionLib.ConnectionFunctions.SetupConnection | src/main/java/dev/qilletni/lib/postgres/ConnectionFunctions.java:57-60 | the connection field is the entity's connection, possibly unset |
| ConnectionLib.ConnectionFunctions.IsConnected | src/main/java/dev/qilletni/lib/postgres/ConnectionFunctions.java:62-68 | set and reported open; a refused isClosed answers false |
| ConnectionLib.ConnectionFunctions.VerifyConnection | src/main/java/dev/qilletni/lib/postgres/ConnectionFunctions.java:341-349 | "Connection is not initialized" when unset, "Connection is closed" when closed, the isClosed refusal otherwise |
| ConnectionLib.ConnectionFunctions.QueryStatement | src/main/java/dev/qilletni/lib/postgres/ConnectionFunctions.java:92-121 | text runs on a fresh statement, paired and owned; a prepared statement is not owned, and a positive fetch size is swapped in and restored; a value that is neither a string nor an entity throws InvalidStatementTypeException; fails exactly with OpenFault; the ad hoc statement exists exactly when createStatement succeeded on text, is left open when setFetchSize or executeQuery then throws, and is the pairing's statement on success |
| ConnectionLib.ConnectionFunctions.UpdateStatement | src/main/java/dev/qilletni/lib/postgres/ConnectionFunctions.java:130-141 | the database's update count; an ad hoc statement is closed by try-with-resources |
| ConnectionLib.ConnectionFunctions.ExecuteStatement | src/main/java/dev/qilletni/lib/postgres/ConnectionFunctions.java:150-161 | whether the statement produced a result set; ad hoc statement closed |
| ConnectionLib.ConnectionFunctions.PrepareStatement | src/main/java/dev/qilletni/lib/postgres/ConnectionFunctions.java:163-186 | on success, a fresh open statement for the text, with entry i bound at slot i + 1 in order; otherwise Caught of its first refusal, so a rejected parameter escapes |
| ConnectionLib.ConnectionFunctions.PrepareStatementWithoutParams | src/main/java/dev/qilletni/lib/postgres/ConnectionFunctions.java:70-72 | the two-argument form with no parameters |
| ConnectionLib.ConnectionFunctions.Query | src/main/java/dev/qilletni/lib/postgres/ConnectionFunctions.java:188-209 | Success(the metadata, the open cursor, and the statement exactly for text input), or Caught of the first refusal; the ad hoc statement of text exists exactly when verification and createStatement succeeded, and is open on every path |
| ConnectionLib.ConnectionFunctions.FetchOne | src/main/java/dev/qilletni/lib/postgres/ConnectionFunctions.java:211-237 | the first row, or NO_ROWS_RETURNED for an empty answer, or Caught of the first refusal; once opened, the pairing is released on every path; an ad hoc statement created before a failure that left no pairing stays open |
| ConnectionLib.ConnectionFunctions.FetchAll | src/main/java/dev/qilletni/lib/postgres/ConnectionFunctions.java:239-264 | every row in order, or Caught of the first refusal, without verifying the connection; pairing released; an ad hoc statement with no pairing stays open |
| ConnectionLib.ConnectionFunctions.Update | src/main/java/dev/qilletni/lib/postgres/ConnectionFunctions.java:266-276 | Success(update count) or Caught of verifyConnection's or updateStatement's refusal |
| ConnectionLib.ConnectionFunctions.Execute | src/main/java/dev/qilletni/lib/postgres/ConnectionFunctions.java:278-289 | Success(had a result set) or Caught of the first refusal |
| ConnectionLib.ConnectionFunctions.BeginTransaction | src/main/java/dev/qilletni/lib/postgres/ConnectionFunctions.java:291-301 | answer and new connection state are Perform(BeginTransaction) of the old state |
| ConnectionLib.ConnectionFunctions.Commit | src/main/java/dev/qilletni/lib/postgres/ConnectionFunctions.java:303-314 | Perform(Commit): verify, commit, then auto-commit on |
| ConnectionLib.ConnectionFunctions.Rollback | src/main/java/dev/qilletni/lib/postgres/ConnectionFunctions.java:316-327 | Perform(Rollback): verify, rollback, then auto-commit on |
| ConnectionLib.ConnectionFunctions.Disconnect | src/main/java/dev/qilletni/lib/postgres/ConnectionFunctions.java:329-339 | Perform(Disconnect): verify, then close |
| ResultSetLib.ResultSetFunctions.SetupResultSet | src/main/java/dev/qilletni/lib/postgres/ResultSetFunctions.java:23-27 | the cursor, and the statement when the Optional holds one, else null |
| ResultSetLib.ResultSetFunctions.HasNext | src/main/java/dev/qilletni/lib/postgres/ResultSetFunctions.java:29-35 | whether another row was reached; a refused next answers false; the cursor advances as the driver's next does |
| ResultSetLib.ResultSetFunctions.GetValue | src/main/java/dev/qilletni/lib/postgres/ResultSetFunctions.java:37-49 | ValueAt of the column, whose meaning ColumnAccess's lemmas state; the only failures are DatabaseExceptions, or a null reference when there is no cursor |
| ResultSetLib.ResultSetFunctions.Close | src/main/java/dev/qilletni/lib/postgres/ResultSetFunctions.java:51-61 | closes the cursor, then the statement if there is one; succeeds exactly when neither close is refused, and otherwise throws the first refusal re-raised as a DatabaseException |
| LegacyResultSetLib.ResultSetFunctions.SetupResultSet | src/main/java/is/yarr/qilletni/lib/postgres/ResultSetFunctions.java:20-23 | the cursor field is the entity's cursor |
| LegacyResultSetLib.ResultSetFunctions.HasNext | src/main/java/is/yarr/qilletni/lib/postgres/ResultSetFunctions.java:25-31 | as the current tree's hasNext |
| LegacyResultSetLib.ResultSetFunctions.GetValue | src/main/java/is/yarr/qilletni/lib/postgres/ResultSetFunctions.java:33-45 | as the current tree's getValue |
| PreparedStatementLib.PreparedStatementFunctions.SetupPreparedStatement | src/main/java/dev/qilletni/lib/postgres/PreparedStatementFunctions.java:17-20 | the statement field is the entity's statement |
| PreparedStatementLib.PreparedStatementFunctions.SetParam | src/main/java/dev/qilletni/lib/postgres/PreparedStatementFunctions.java:22-29 | a rejected value escapes before the statement is touched; otherwise answers whether setObject accepted slot `index` (unshifted) and, if so, binds the converted value there |
| PreparedStatementLib.PreparedStatementFunctions.Close | src/main/java/dev/qilletni/lib/postgres/PreparedStatementFunctions.java:31-38 | true and closed exactly when the driver does not refuse the close |
| LegacyConnectionLib.ConnectionFunctions.SetupConnection | src/main/java/is/yarr/qilletni/lib/postgres/ConnectionFunctions.java:50-53 | the connection field is the entity's connection |
| LegacyConnectionLib.ConnectionFunctions.IsConnected | src/main/java/is/yarr/qilletni/lib/postgres/ConnectionFunctions.java:55-61 | as the current tree |
| LegacyConnectionLib.ConnectionFunctions.VerifyConnection | src/main/java/is/yarr/qilletni/lib/postgres/ConnectionFunctions.java:214-222 | as the current tree |
| LegacyConnectionLib.ConnectionFunctions.OpenQuery | src/main/java/is/yarr/qilletni/lib/postgres/ConnectionFunctions.java:85-88 | createStatement, setFetchSize(1) when asked, executeQuery: a fresh cursor over the answer or the first refusal; the statement stays open |
| LegacyConnectionLib.ConnectionFunctions.Query | src/main/java/is/yarr/qilletni/lib/postgres/ConnectionFunctions.java:63-79 | Success(metadata, open cursor, no statement), or the first refusal thrown as it is; the ad hoc statement exists exactly when verification and createStatement succeeded, and stays open on every path |
| LegacyConnectionLib.ConnectionFunctions.FetchOne | src/main/java/is/yarr/qilletni/lib/postgres/ConnectionFunctions.java:81-108 | the first row, NO_ROWS_RETURNED, or Caught of the first refusal; the cursor is closed unless its close is refused, and the statement stays open |
| LegacyConnectionLib.ConnectionFunctions.FetchAll | src/main/java/is/yarr/qilletni/lib/postgres/ConnectionFunctions.java:110-136 | every row, or Caught of the first refusal, without verifying the connection; statement stays open |
| LegacyConnectionLib.ConnectionFunctions.Update | src/main/java/is/yarr/qilletni/lib/postgres/ConnectionFunctions.java:138-149 | Success(update count) or Caught of the first refusal; the ad hoc statement exists exactly when verification and createStatement succeeded, and stays open |
| LegacyConnectionLib.ConnectionFunctions.Execute | src/main/java/is/yarr/qilletni/lib/postgres/ConnectionFunctions.java:151-162 | Success(had a result set) or Caught of the first refusal; the ad hoc statement exists exactly when verification and createStatement succeeded, and stays open |
| LegacyConnectionLib.ConnectionFunctions.BeginTransaction | src/main/java/is/yarr/qilletni/lib/postgres/ConnectionFunctions.java:164-174 | Perform(BeginTransaction) |
| LegacyConnectionLib.ConnectionFunctions.Commit | src/main/java/is/yarr/qilletni/lib/postgres/ConnectionFunctions.java:176-187 | Perform(Commit) |
| LegacyConnectionLib.ConnectionFunctions.Rollback | src/main/java/is/yarr/qilletni/lib/postgres/ConnectionFunctions.java:189-200 | Perform(Rollback) |
| LegacyConnectionLib.ConnectionFunctions.Disconnect | src/main/java/is/yarr/qilletni/lib/postgres/ConnectionFunctions.java:202-212 | Perform(Disconnect) |
| ConnectionProperties.UninitializedReports99 | src/main/java/dev/qilletni/lib/postgres/ConnectionFunctions.java:341-344 | with no connection, query, fetchOne, prepareStatement and update all fail first with "Connection is not initialized", which Caught makes code 99 |
| ConnectionProperties.ClosedReports99 | src/main/java/dev/qilletni/lib/postgres/ConnectionFunctions.java:346-348 | the same for a closed connection, with "Connection is closed" |
| ConnectionProperties.FetchAllSkipsVerification | src/main/java/dev/qilletni/lib/postgres/ConnectionFunctions.java:239-264 | fetchAll of text with no connection throws a null reference out of the call, and on a closed connection answers code 10 with the driver's closed-connection message |
| ConnectionProperties.OtherInputEscapes | src/main/java/dev/qilletni/lib/postgres/ConnectionFunctions.java:120 | on a live connection, an input that is neither a string nor an entity makes every query-family call throw InvalidStatementTypeException, which is not caught |
| ConnectionProperties.FetchSizeRestored | src/main/java/dev/qilletni/lib/postgres/ConnectionFunctions.java:104-115 | a successful fetchOne on a prepared statement leaves its fetch size as it was; one whose executeQuery is refused leaves it at 1 |
| ConnectionProperties.HealthyRawSucceeds | src/main/java/dev/qilletni/lib/postgres/ConnectionFunctions.java:92-100 | with a live connection and a driver that refuses nothing, every query-family call on text succeeds |
| ConnectionProperties.HealthyPreparedSucceeds | src/main/java/dev/qilletni/lib/postgres/ConnectionFunctions.java:101-117 | the same for an open prepared statement |
| ConnectionProperties.RejectedParameterEscapes | src/main/java/dev/qilletni/lib/postgres/ConnectionFunctions.java:167-173 | on a live connection the first non-bindable parameter escapes as InvalidPreparedStatementType with its type name, before anything is prepared |
| ConnectionProperties.PrepareOutcome | src/main/java/dev/qilletni/lib/postgres/ConnectionFunctions.java:175-178 | with a healthy driver and bindable parameters, prepareStatement succeeds exactly when there are no more parameters than slots; otherwise it answers code 10 |
| ConnectionProperties.TreesAgreeOnRawFetches | src/main/java/is/yarr/qilletni/lib/postgres/ConnectionFunctions.java:81-136 | when ad hoc statements close, the current tree's fetchOne fails exactly as the legacy one; so does fetchAll when setFetchSize is not refused |
| ConnectionProperties.LegacyQueryEscapes | src/main/java/is/yarr/qilletni/lib/postgres/ConnectionFunctions.java:63-64 | the legacy query with no connection, or a closed one, throws the DatabaseException itself rather than answering an error result |
| ConnectionProperties.LegacyHealthySucceeds | src/main/java/is/yarr/qilletni/lib/postgres/ConnectionFunctions.java:63-162 | with a live connection and a healthy driver, every legacy query-family call succeeds |

The legacy DatabaseTypeUtility.java and PreparedStatementFunctions.java under
`src/main/java/is/yarr/qilletni/lib/postgres/` hold the same code at the same lines as their current-tree
counterparts cited above, so TypeUtility and PreparedStatementLib model both.

## Left out

- DatabaseFunctions (connection acquisition by URL, user and password) is not part of this model; a connection enters through SetupConnection.
- Host runtime calls (entity initialisation, list creation, type conversion, the Result entity's static functions) are not modelled: entities are Dafny values or objects, a Result is the Result datatype, and the setup hooks take the looked-up values as parameters.
- SQL semantics: the database is a set of total functions, updates do not change what later queries answer, and statements do not observe that their connection has since been closed.
- Floating point: doubles are carried as bit patterns and never computed with.
- Concurrency: the bridge is modelled single-threaded.
- Results.Format supports only the `%s` conversion, the only one the templates use.
- An SQLException with a null message is not modelled; every message is a string.
- Column labels are matched case-sensitively (Jdbc.ColumnOf); the PostgreSQL driver's case-insensitive label lookup is not modelled.
- The driver's messages are the model's own texts, and the description of an SQLException cause uses the class name java.sql.SQLException.
- ConnectionLib.ConnectionFunctions.PrepareStatement: a success is `Success(statement)` for the bare PreparedStatement entity the source returns; the source mixes that entity with Result entities in one return type.
- ConnectionLib.ConnectionFunctions.Query: when reading the metadata fails, the source leaks the opened cursor as well as the statement; the model exposes the statement as `adhoc` but not the cursor.
- ConnectionLib.QueryInput: an entity other than a PreparedStatement (a ResultSet entity, say) is not modelled. The source sends every entity down the prepared-statement branch, where the host's lookup of its `_preparedStatement` member fails; only values that are neither strings nor entities reach InvalidStatementTypeException.
- Jdbc.Faults: a driver refusal depends on the kind of call only, not on the cursor position or on how often the call was made. So Cursors.AllRows, ConnectionLib.ConnectionFunctions.FetchAll and LegacyConnectionLib.ConnectionFunctions.FetchAll cannot express a `next` or `getObject` that fails after some rows were read. Their "first refusal" is always a refusal of the first call, and a release of the cursor after a failure in mid-iteration is not shown.
- QueryResults.QueryResult.Close: the source lets a close failure propagate, and the model follows the code.
- ConnectionLib.ConnectionFunctions.QueryStatement: a prepared statement's fetch size is restored only when executeQuery returns; when it throws, the fetch size stays at the temporary value, as the code does.
