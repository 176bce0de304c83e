/** Dynamically typed values as an image or PDF decoder hands them over,
    the exceptions the pipeline raises, and the interpreter built-ins it
    calls whose exact text (str() of an object, float rendering, UTF-8
    decoding) is taken as a parameter rather than modelled. */
module Values {

  newtype byte = x: int | 0 <= x < 256

  datatype Option<+T> = None | Some(value: T)

  /** A raw tag value. `Mapping` is a dict, kept as its entries in
      iteration order. */
  datatype Value =
    | Null
    | Bool(b: bool)
    | Int(i: int)
    | Float(r: real)
    | Str(s: string)
    | Bytes(data: seq<byte>)
    | Tuple(items: seq<Value>)
    | List(items: seq<Value>)
    | Mapping(entries: seq<(Value, Value)>)

  /** Exception classes the pipeline raises or lets through. */
  datatype ExcKind =
    | FileNotFoundError
    | UnidentifiedImageError
    | TypeError
    | AttributeError
    | KeyError
    | Exception
    | OtherError(name: string)

  /** An exception; `message` is what str(e) gives. */
  datatype PyException = PyException(kind: ExcKind, message: string)

  datatype Result<+T> = Ok(value: T) | Err(error: PyException)

  /** The built-ins whose output text is not part of this model. */
  datatype Builtins = Builtins(
    str: Value -> string,                      // str(v) for a v that is not a str
    fixed1: real -> string,                    // format(x, ".1f")
    fixed2: real -> string,                    // format(x, ".2f")
    floatRepr: real -> string,                 // str(x) for a float
    decodeUtf8: seq<byte> -> string,           // bytes.decode('utf-8', errors='ignore')
    parseFloat: string -> Option<real>,        // float(s), None on ValueError
    parseFloatBytes: seq<byte> -> Option<real> // float(b), None on ValueError
  )

  /** str(v): exact for None, booleans, integers and strings; the
      built-in's text for the rest. */
  function StrOf(v: Value, py: Builtins): (r: string)
    ensures v.Str? ==> r == v.s
    ensures v.Int? ==> r == IntText(v.i)
  {
    match v
    case Null => "None"
    case Bool(b) => if b then "True" else "False"
    case Int(i) => IntText(i)
    case Str(s) => s
    case _ => py.str(v)
  }

  function Digit(d: nat): char
    requires d < 10
  {
    "0123456789"[d]
  }

  /** Decimal digits of n, most significant first, without leading zeros. */
  function NatText(n: nat): (r: string)
    ensures |r| >= 1 && (forall c :: c in r ==> '0' <= c <= '9')
    ensures (r[0] == '0') <==> n == 0
  {
    if n < 10 then [Digit(n)] else NatText(n / 10) + [Digit(n % 10)]
  }

  /** str(i) for an int. */
  function IntText(i: int): (r: string)
    ensures |r| >= 1
    ensures i < 0 ==> r[0] == '-' && r[1..] == NatText(-i)
    ensures i >= 0 ==> r == NatText(i)
  {
    if i < 0 then "-" + NatText(-i) else NatText(i)
  }

  /** bool(v) */
  predicate Truthy(v: Value) {
    match v
    case Null => false
    case Bool(b) => b
    case Int(i) => i != 0
    case Float(r) => r != 0.0
    case Str(s) => s != []
    case Bytes(data) => data != []
    case Tuple(items) => items != []
    case List(items) => items != []
    case Mapping(entries) => entries != []
  }

  /** type(v).__name__ */
  function TypeName(v: Value): string {
    match v
    case Null => "NoneType"
    case Bool(_) => "bool"
    case Int(_) => "int"
    case Float(_) => "float"
    case Str(_) => "str"
    case Bytes(_) => "bytes"
    case Tuple(_) => "tuple"
    case List(_) => "list"
    case Mapping(_) => "dict"
  }

  /** The numeric tower: bool, int and float take part in arithmetic. */
  predicate IsNumber(v: Value) {
    v.Bool? || v.Int? || v.Float?
  }

  function NumberOf(v: Value): real
    requires IsNumber(v)
  {
    match v
    case Bool(b) => if b then 1.0 else 0.0
    case Int(i) => i as real
    case Float(r) => r
  }

  /** v != 0 */
  predicate NonZero(v: Value) {
    !IsNumber(v) || NumberOf(v) != 0.0
  }

  /** float(v); None where the interpreter raises TypeError or ValueError. */
  function FloatOf(v: Value, py: Builtins): (r: Option<real>)
    ensures IsNumber(v) ==> r == Some(NumberOf(v))
    ensures v.Null? || v.Tuple? || v.List? || v.Mapping? ==> r == None
  {
    match v
    case Str(s) => py.parseFloat(s)
    case Bytes(data) => py.parseFloatBytes(data)
    case Null => None
    case Tuple(_) => None
    case List(_) => None
    case Mapping(_) => None
    case _ => Some(NumberOf(v))
  }

  /** The exception raised when an attribute is looked up on a value that lacks it. */
  function NoAttribute(v: Value, attribute: string): PyException {
    PyException(AttributeError, "'" + TypeName(v) + "' object has no attribute '" + attribute + "'")
  }
}
