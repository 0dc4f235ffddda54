/** The Result envelope every query-family call returns, the fixed table of error codes and
    message templates, the `%s` formatting that fills them, and the mapping of caught
    exceptions to error results. Both package trees define this table identically. */
module Results {
  import opened Outcomes

  datatype Result<+T> = Success(value: T) | Error(code: int, message: string)

  /** The error kinds, with their codes and message templates. */
  datatype ErrorType = SuccessKind | NoRowsReturned | SqlExceptionKind | Disconnected {

    function Code(): int {
      match this
      case SuccessKind => 0
      case NoRowsReturned => 1
      case SqlExceptionKind => 10
      case Disconnected => 99
    }

    /** The literal text of the template, before its `%s` slot if it has one. */
    function Prefix(): string {
      match this
      case SuccessKind => "Success"
      case NoRowsReturned => "No rows returned"
      case SqlExceptionKind => "SQL Exception: "
      case Disconnected => "Database disconnected: "
    }

    /** Whether the template ends in a `%s` slot for a detail message. */
    predicate HasSlot() {
      SqlExceptionKind? || Disconnected?
    }

    function Template(): string {
      if HasSlot() then Prefix() + "%s" else Prefix()
    }
  }

  /** Java's `String.formatted` for templates whose only conversion is `%s`: each `%s`
      takes the next argument, extra arguments are ignored, and None stands for the
      exception Java throws when an argument is missing or another conversion appears.
      Arguments are inserted verbatim and never rescanned. */
  function Format(template: string, args: seq<string>): Option<string>
    decreases |template|
  {
    if template == [] then Some([])
    else if template[0] == '%' then
      if |template| >= 2 && template[1] == 's' && args != [] then
        match Format(template[2..], args[1..])
        case None => None
        case Some(rest) => Some(args[0] + rest)
      else None
    else
      match Format(template[1..], args)
      case None => None
      case Some(rest) => Some([template[0]] + rest)
  }

  /** Text without a `%` formats to itself, whatever the arguments. */
  lemma {:induction false} FormatLiteral(text: string, args: seq<string>)
    requires '%' !in text
    ensures Format(text, args) == Some(text)
  {
    if text != [] {
      assert text[0] != '%';
      assert '%' !in text[1..] by {
        forall k | 0 <= k < |text[1..]| ensures text[1..][k] != '%' {
          assert text[1..][k] == text[k + 1];
        }
      }
      FormatLiteral(text[1..], args);
      assert [text[0]] + text[1..] == text;
    }
  }

  /** A literal prefix followed by one slot formats to the prefix followed by the argument. */
  lemma {:induction false} FormatOneSlot(prefix: string, arg: string, args: seq<string>)
    requires '%' !in prefix
    ensures Format(prefix + "%s", [arg] + args) == Some(prefix + arg)
  {
    if prefix == [] {
      assert prefix + "%s" == "%s";
      assert "%s"[2..] == [];
      assert ([arg] + args)[0] == arg && ([arg] + args)[1..] == args;
      assert arg + [] == arg;
      var t := "%s";
      assert t[0] == '%' && t[1] == 's' && |t| == 2;
      assert Format(t[2..], args) == Some([]);
      assert Format(t, [arg] + args) == Some(arg + []);
      assert prefix + arg == arg;
    } else {
      var rest := prefix[1..];
      assert (prefix + "%s")[0] == prefix[0];
      assert (prefix + "%s")[1..] == rest + "%s";
      assert '%' !in rest by {
        forall k | 0 <= k < |rest| ensures rest[k] != '%' {
          assert rest[k] == prefix[k + 1];
        }
      }
      FormatOneSlot(rest, arg, args);
      assert [prefix[0]] + (rest + arg) == prefix + arg;
    }
  }

  /** `createResult(errorType, format...)`: the error result whose code is the kind's code
      and whose message is its template with the first argument in the slot. */
  function ErrorResult<T>(kind: ErrorType, args: seq<string>): (r: Result<T>)
    requires kind.HasSlot() ==> |args| >= 1
    ensures r.Error? && r.code == kind.Code()
    ensures r.message == if kind.HasSlot() then kind.Prefix() + args[0] else kind.Prefix()
  {
    if kind.HasSlot() then
      FormatOneSlot(kind.Prefix(), args[0], args[1..]);
      assert [args[0]] + args[1..] == args;
      Error(kind.Code(), Format(kind.Template(), args).value)
    else
      FormatLiteral(kind.Prefix(), args);
      Error(kind.Code(), Format(kind.Template(), args).value)
  }

  /** The one method-level handler of the query family: an SQLException becomes code 10,
      a DatabaseException code 99, each with its message in the slot; every other
      exception escapes unchanged. */
  function Caught<T>(f: Fault): (r: Outcome<Result<T>>)
    ensures f.SqlException? ==> r == Ok(Error(10, "SQL Exception: " + f.message))
    ensures f.DatabaseException? ==> r == Ok(Error(99, "Database disconnected: " + f.message))
    ensures !f.SqlException? && !f.DatabaseException? ==> r == Thrown(f)
  {
    match f
    case SqlException(m) => Ok(ErrorResult(SqlExceptionKind, [m]))
    case DatabaseException(m) => Ok(ErrorResult(Disconnected, [m]))
    case _ => Thrown(f)
  }

  /** `createResult(ErrorType.NO_ROWS_RETURNED)`. */
  function NoRows<T>(): (r: Result<T>)
    ensures r == Error(1, "No rows returned")
  {
    ErrorResult(NoRowsReturned, [])
  }

  /** The four codes are distinct, so a code names its kind. */
  lemma CodesIdentifyKinds(a: ErrorType, b: ErrorType)
    ensures a.Code() == b.Code() <==> a == b
  {
  }
}
