/** getValue, shared by the ResultSetFunctions of both package trees: a column addressed by
    label (a string) or by a 0-based index (an int), read on the cursor's current row. */
module ColumnAccess {
  import opened Outcomes
  import opened Values
  import opened Jdbc

  /** The driver column read for index i: Java's `((int) i) + 1`, a narrowing cast of the
      64-bit value followed by a 32-bit addition. */
  function DriverColumn(i: Int64): (c: Int32)
    ensures -0x8000_0000 <= i < 0x7fff_ffff ==> c == i + 1
    ensures i == 0x7fff_ffff ==> c == -0x8000_0000
    ensures (c - (i + 1)) % TWO_TO_32 == 0
  {
    WrapInt32(WrapInt32(i) + 1)
  }

  /** How getValue and close re-raise a driver failure: `new DatabaseException(e)`, whose
      message is the description of the cause. Other exceptions pass unchanged. */
  function Rewrapped(f: Fault): (r: Fault)
    ensures !r.SqlException?
    ensures f.SqlException? ==> r.DatabaseException? && r.message == CauseMessage(f.message)
    ensures !f.SqlException? ==> r == f
  {
    if f.SqlException? then DatabaseException(CauseMessage(f.message)) else f
  }

  /** getValue(column) on `rs`: by label for a string, at driver column i + 1 for an int i,
      null for any other kind. */
  function ValueAt(rs: ResultSet, column: HostValue): Outcome<NativeValue>
    reads rs
  {
    var read :=
      match column
      case Str(name) => rs.ObjectNamed(name)
      case Int(i) => rs.ObjectAt(DriverColumn(i))
      case _ => Ok(JNull);
    if read.Thrown? then Thrown(Rewrapped(read.fault)) else read
  }

  /** Index i reads the (i + 1)-th driver column, so the caller's indexing is 0-based. */
  lemma ZeroBasedIndex(rs: ResultSet, i: Int64)
    requires rs.OnRow() && rs.Refusal(GetObjectCall).None?
    requires 0 <= i < rs.ColumnCount() && i < 0x7fff_ffff
    ensures ValueAt(rs, Int(i)) == Ok(rs.CurrentRow()[i])
  {
    assert DriverColumn(i) == i + 1;
  }

  /** An index outside the columns fails, re-raised as a DatabaseException. */
  lemma IndexOutOfRange(rs: ResultSet, i: Int64)
    requires rs.OnRow() && rs.Refusal(GetObjectCall).None?
    requires -0x8000_0000 <= i < 0 || rs.ColumnCount() <= i < 0x7fff_ffff
    ensures ValueAt(rs, Int(i)) == Thrown(DatabaseException(CauseMessage(ColumnIndexMessage)))
  {
    assert DriverColumn(i) == i + 1;
  }

  /** The index is truncated to 32 bits first: indices 2^32 apart read the same column. */
  lemma IndexTruncated(rs: ResultSet, i: Int64)
    requires -0x8000_0000_0000_0000 <= i + TWO_TO_32 < 0x8000_0000_0000_0000
    ensures ValueAt(rs, Int(i + TWO_TO_32)) == ValueAt(rs, Int(i))
  {
    WrapPeriodic(i);
    assert DriverColumn(i + TWO_TO_32) == DriverColumn(i);
  }

  lemma WrapPeriodic(x: int)
    ensures WrapInt32(x + TWO_TO_32) == WrapInt32(x)
  {
    assert (x + TWO_TO_32) % TWO_TO_32 == x % TWO_TO_32;
  }

  /** A label reads the first column carrying it; a missing label fails. */
  lemma ByLabel(rs: ResultSet, name: string)
    requires rs.OnRow() && rs.Refusal(GetObjectCall).None?
    ensures name in rs.table.labels ==>
      exists k :: 0 <= k < |rs.table.labels| && rs.table.labels[k] == name
        && (forall j :: 0 <= j < k ==> rs.table.labels[j] != name)
        && ValueAt(rs, Str(name)) == Ok(rs.CurrentRow()[k])
    ensures name !in rs.table.labels ==>
      ValueAt(rs, Str(name)) == Thrown(DatabaseException(CauseMessage(ColumnNameMessage(name))))
  {
    var k := ColumnOf(rs.table.labels, name);
    if k.Some? {
      assert ValueAt(rs, Str(name)) == Ok(rs.CurrentRow()[k.value]);
    }
  }

  /** Any other kind of value reads nothing and answers null, whatever the cursor's state. */
  lemma OtherKindsNull(rs: ResultSet, column: HostValue)
    requires !column.Str? && !column.Int?
    ensures ValueAt(rs, column) == Ok(JNull)
  {
  }

  /** A driver failure never escapes as an SQLException. */
  lemma NoSqlExceptionEscapes(rs: ResultSet, column: HostValue)
    ensures ValueAt(rs, column).Thrown? ==> ValueAt(rs, column).fault.DatabaseException?
  {
  }
}
