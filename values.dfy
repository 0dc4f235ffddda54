/** Host-language values, driver-native values and Java's fixed-width integers. */
module Values {

  const TWO_TO_32: int := 0x1_0000_0000

  type Int32 = x: int | -0x8000_0000 <= x < 0x8000_0000
  type Int64 = x: int | -0x8000_0000_0000_0000 <= x < 0x8000_0000_0000_0000

  /** Java's narrowing cast to `int`, and the result of 32-bit `+`: the low 32 bits,
      read as a two's-complement number. */
  function WrapInt32(x: int): (r: Int32)
    ensures (r - x) % TWO_TO_32 == 0
    ensures -0x8000_0000 <= x < 0x8000_0000 ==> r == x
  {
    var m := x % TWO_TO_32;
    if m < 0x8000_0000 then m else m - TWO_TO_32
  }

  /** A double, kept as its bit pattern: the model passes doubles through and never computes with them. */
  datatype Float64 = Float64(bits: bv64)

  /** A value of the host language as it reaches the bridge. `Unsupported` is every other
      kind, named by its type name; `isAnyType` tells whether it is a value type (AnyType)
      at all, or something else such as an entity. */
  datatype HostValue =
    | Bool(b: bool)
    | Double(d: Float64)
    | Int(i: Int64)
    | Str(s: string)
    | Unsupported(typeName: string, isAnyType: bool)
  {
    /** The kinds a prepared statement parameter may have. */
    predicate Bindable() { !Unsupported? }
  }

  /** A Java object handed to or returned by the driver. */
  datatype NativeValue =
    | JBoolean(b: bool)
    | JDouble(d: Float64)
    | JLong(l: Int64)
    | JString(s: string)
    | JNull
    | JObject(className: string)
}
