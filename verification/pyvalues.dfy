/**
 Python attribute values as the message classifier sees them.

 The classifier asks two questions of each optional attribute of a message:
 does the object have it at all (`hasattr`), and is its value truthy.
 An attribute is therefore either absent or present with a value, and a value
 is truthy according to Python's rules for the kinds of values a decoded
 platform event can hold.
 */
module PyValues {

  /** The values a decoded event attribute can hold. */
  datatype PyValue =
    | PyNone
    | PyBool(b: bool)
    | PyInt(i: int)
    | PyStr(s: string)
    | PyList(items: seq<PyValue>)
    | PyDict(entries: map<string, PyValue>)
      /** An instance of a parsed model class (a user, a message): it defines
          neither `__bool__` nor `__len__`, so Python always treats it as true. */
    | PyObject

  /** Python's `bool(v)`. */
  predicate Truthy(v: PyValue) {
    match v
    case PyNone => false
    case PyBool(b) => b
    case PyInt(i) => i != 0
    case PyStr(s) => |s| > 0
    case PyList(items) => |items| > 0
    case PyDict(entries) => |entries| > 0
    case PyObject => true
  }

  /** An optional attribute of an object: missing, or present with a value. */
  datatype Attr = Absent | Present(value: PyValue)

  /** `hasattr(obj, name) and bool(getattr(obj, name))`. */
  predicate IsSet(a: Attr) {
    a.Present? && Truthy(a.value)
  }
}
