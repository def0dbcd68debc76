/**
 * The dynamically typed variables of the simulator and the exceptions its
 * frame and stack accessors throw.
 *
 * The C++ program stores each variable as a `Var<T>` behind a `BaseVar`
 * pointer and recovers its type with `dynamic_cast`; here the three types the
 * program instantiates (`int`, `string`, `vector<string>`) form a closed
 * datatype.
 */
module Values {

  /** A frame variable: `Var<int>`, `Var<string>` or `Var<vector<string>>`. */
  datatype Value = Int(i: int) | Text(s: string) | StringList(items: seq<string>)

  /** The type argument `T` of a typed lookup `val<T>(name)`. */
  datatype Kind = IntKind | TextKind | ListKind

  function KindOf(v: Value): Kind
  {
    match v
    case Int(_) => IntKind
    case Text(_) => TextKind
    case StringList(_) => ListKind
  }

  /** The exceptions the core can throw. */
  datatype Error =
    | NameNotInFrame(name: string)   // Frame::var: std::out_of_range("name is not in frame")
    | BadCast(name: string)          // Frame::var: dynamic_cast to a reference of the wrong Var<T>
    | StackIndexOutOfRange           // Stack::top: std::vector::at past either end

  /** A computation that either yields a `T` or throws an `Error`. */
  datatype Result<+T> = Success(value: T) | Failure(error: Error) {

    predicate IsFailure() {
      Failure?
    }

    function PropagateFailure<U>(): Result<U>
      requires Failure?
    {
      Failure(error)
    }

    function Extract(): T
      requires Success?
    {
      value
    }
  }
}
