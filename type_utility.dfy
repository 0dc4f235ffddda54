/** DatabaseTypeUtility: host values to the Java objects bound as statement parameters.
    The two package trees hold the same code, so this module models both. */
module TypeUtility {
  import opened Outcomes
  import opened Values

  function InvalidTypeMessage(typeName: string): string {
    "Invalid type for PreparedStatement: " + typeName
  }

  /** `fromQilletniToNativeJava`: a value that is not a value type is rejected first; a
      value type of a kind other than the four bindable ones falls to the default branch. */
  function FromQilletniToNativeJava(v: HostValue): Outcome<NativeValue> {
    if v.Unsupported? && !v.isAnyType then Thrown(InvalidPreparedStatementType(InvalidTypeMessage(v.typeName)))
    else
      match v
      case Bool(b) => Ok(JBoolean(b))
      case Double(d) => Ok(JDouble(d))
      case Int(i) => Ok(JLong(i))
      case Str(s) => Ok(JString(s))
      case Unsupported(t, _) => Thrown(InvalidPreparedStatementType(InvalidTypeMessage(t)))
  }

  /** The host value a bindable Java object came from: the reference inverse of the coercion. */
  function ToHost(n: NativeValue): Option<HostValue> {
    match n
    case JBoolean(b) => Some(Bool(b))
    case JDouble(d) => Some(Double(d))
    case JLong(l) => Some(Int(l))
    case JString(s) => Some(Str(s))
    case _ => None
  }

  /** Bindable values convert, and converting back gives the same value: nothing is changed. */
  lemma CoercionRoundTrip(v: HostValue)
    requires v.Bindable()
    ensures FromQilletniToNativeJava(v).Ok?
    ensures ToHost(FromQilletniToNativeJava(v).value) == Some(v)
  {
  }

  /** Every other kind, whether a value type or not, is rejected with its type name. */
  lemma CoercionRejects(v: HostValue)
    ensures !v.Bindable() <==> FromQilletniToNativeJava(v).Thrown?
    ensures !v.Bindable() ==>
      FromQilletniToNativeJava(v) == Thrown(InvalidPreparedStatementType("Invalid type for PreparedStatement: " + v.typeName))
  {
  }

  /** Distinct values convert to distinct objects. */
  lemma CoercionInjective(v: HostValue, w: HostValue)
    requires FromQilletniToNativeJava(v).Ok? && FromQilletniToNativeJava(w).Ok?
    requires FromQilletniToNativeJava(v) == FromQilletniToNativeJava(w)
    ensures v == w
  {
    CoercionRoundTrip(v);
    CoercionRoundTrip(w);
  }
}
