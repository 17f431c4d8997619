/**
 * JavaScript values as they occur in the task's configuration record,
 * JavaScript truthiness, and the host tool's `TaskError`.
 */
module JsValues {

  datatype Option<+T> = None | Some(value: T)

  datatype Result<+T, +E> = Success(value: T) | Failure(error: E)

  /** The host tool's `api.errors.TaskError`; only its message is modelled. */
  datatype TaskError = TaskError(message: string)

  /**
   * A configuration value. Numbers are restricted to integers; the elements
   * of an array and the property values of a nested object are strings.
   * `Other` stands for every truthy value of a type the task does not
   * handle (a function, a symbol, a BigInt other than 0n).
   */
  datatype Value =
    | Undefined
    | Null
    | Bool(b: bool)
    | Int(n: int)
    | Str(s: string)
    | Arr(items: seq<string>)
    | Obj(props: seq<(string, string)>)
    | Other

  /** `!!v` in JavaScript: an array or object is truthy even when empty. */
  predicate Truthy(v: Value) {
    match v
    case Undefined => false
    case Null => false
    case Bool(b) => b
    case Int(n) => n != 0
    case Str(s) => s != ""
    case Arr(_) => true
    case Obj(_) => true
    case Other => true
  }

  /** The falsy values are exactly `undefined`, `null`, `false`, `0` and `''`. */
  lemma FalsyValues(v: Value)
    ensures !Truthy(v) <==> v in {Undefined, Null, Bool(false), Int(0), Str("")}
  {
  }
}
