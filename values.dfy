/** The Python values a configuration can hold, and Python's truth test on them. */
module Values {

  /** A Python object as far as the configuration logic can observe it.
      PyObject stands for any other object (a float, a list, ...): only its
      identity and its truth value are visible here. */
  datatype Value =
    | PyNone
    | PyBool(b: bool)
    | PyInt(i: int)
    | PyStr(s: string)
    | PyObject(id: nat, truthy: bool)

  /** `bool(v)`: None, False, 0 and "" are falsy. */
  predicate Truthy(v: Value) {
    match v
    case PyNone => false
    case PyBool(b) => b
    case PyInt(i) => i != 0
    case PyStr(s) => s != []
    case PyObject(_, t) => t
  }

  /** `a or b`: the first operand when it is truthy, otherwise the second. */
  function Or(a: Value, b: Value): (r: Value)
    ensures Truthy(a) ==> r == a
    ensures !Truthy(a) ==> r == b
  {
    if Truthy(a) then a else b
  }

  /** A value of the annotation `Optional[str]`. */
  predicate IsOptionalStr(v: Value) {
    v.PyNone? || v.PyStr?
  }
}
