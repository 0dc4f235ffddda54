/** PreparedStatementFunctions, identical in both package trees: the native methods of the
    PreparedStatement entity. Both answer false when the driver throws. */
module PreparedStatementLib {
  import opened Outcomes
  import opened Values
  import opened Jdbc
  import opened TypeUtility

  class PreparedStatementFunctions {
    var preparedStatement: PreparedStatement?

    constructor ()
      ensures preparedStatement == null
    {
      preparedStatement := null;
    }

    method SetupPreparedStatement(ps: PreparedStatement?)
      modifies this
      ensures preparedStatement == ps
    {
      preparedStatement := ps;
    }

    /** setParam(index, value): bind the converted value at exactly `index`, unshifted.
        The value is converted before the call reaches the statement, so a rejected kind
        escapes even when there is no statement; a driver refusal answers false. */
    method SetParam(index: Int32, value: HostValue) returns (o: Outcome<bool>)
      modifies preparedStatement
      ensures FromQilletniToNativeJava(value).Thrown? ==> o == FromQilletniToNativeJava(value).PropagateFailure()
      ensures FromQilletniToNativeJava(value).Ok? && preparedStatement == null ==> o == Thrown(NullPointer)
      ensures FromQilletniToNativeJava(value).Ok? && preparedStatement != null ==>
        o == Ok(old(Guarded(preparedStatement.Refusal(SetObjectCall), preparedStatement.SlotCheck(index))).Ok?)
      ensures preparedStatement != null ==>
        && preparedStatement.closed == old(preparedStatement.closed)
        && preparedStatement.fetchSize == old(preparedStatement.fetchSize)
        && preparedStatement.params ==
             if o == Ok(true) then old(preparedStatement.params)[index := FromQilletniToNativeJava(value).value]
             else old(preparedStatement.params)
    {
      var v :- FromQilletniToNativeJava(value);
      if preparedStatement == null {
        return Thrown(NullPointer);
      }
      var r := preparedStatement.SetObject(index, v);
      return Ok(r.Ok?);
    }

    /** close: true when the driver closed the statement. */
    method Close() returns (o: Outcome<bool>)
      modifies preparedStatement
      ensures preparedStatement == null ==> o == Thrown(NullPointer)
      ensures preparedStatement != null ==>
        && o == Ok(old(preparedStatement.Refusal(CloseStatementCall)).None?)
        && preparedStatement.closed == (old(preparedStatement.closed) || o == Ok(true))
        && preparedStatement.params == old(preparedStatement.params)
        && preparedStatement.fetchSize == old(preparedStatement.fetchSize)
    {
      if preparedStatement == null {
        return Thrown(NullPointer);
      }
      var r := preparedStatement.Close();
      return Ok(r.Ok?);
    }
  }
}
