/**
 * The Python values that the test decorators pass around, and the two
 * collaborators they consult about values: the SSZ encoder and the
 * "does this class carry a `fields` schema" probe.
 */
module Values {

  /** The name of a Python class, used as a type descriptor for encoding. */
  type TypeName = string

  /**
   * A Python value, as far as the decorators can tell values apart.
   * Booleans are kept separate from integers because the mode check uses
   * `is True`, an identity test that `1` does not pass.
   */
  datatype Value =
    | Bool(b: bool)
    | Int(i: int)
    | Str(s: string)
    | Object(cls: TypeName, id: int)   // any other object, identified by its class and an identity

  /** `value.__class__`, by name. */
  function ClassOf(v: Value): TypeName
  {
    match v
    case Bool(_) => "bool"
    case Int(_) => "int"
    case Str(_) => "str"
    case Object(cls, _) => cls
  }

  /**
   * The collaborators the generator mode relies on: `encode(value, typ)`
   * from the debug encoding library, whose result is stored verbatim, and
   * `hasattr(cls, 'fields')`, true of SSZ container classes.
   */
  datatype Codec = Codec(encode: (Value, TypeName) -> Value, hasFields: TypeName -> bool)

  /** Keyword arguments, and the output dictionary of generator mode. */
  type Kwargs = map<string, Value>
  type Output = map<string, Value>

  /** One item yielded by a test function: `(key, value)` or `(key, value, typ)`. */
  datatype Item =
    | Untyped(key: string, value: Value)
    | Typed(key: string, value: Value, typ: TypeName)

}
